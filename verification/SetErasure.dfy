/** Removing every `Param::Set` wrapper from a specialized expression. `Set` only records
    that a parameter has been filled in, so nothing downstream may depend on it. */
module SetErasure {
  import opened Base
  import opened Tir
  import opened Expr

  function Erase(e: Expression): Expression
    decreases e, 1
  {
    match e
    case List(items) => List(EraseEach(items))
    case Map(pairs) => Map(ErasePairs(pairs))
    case Tuple(elements) => Tuple(EraseEach(elements))
    case Struct(c, fields) => Struct(c, EraseEach(fields))
    case Assets(assets) => Assets(EraseAssets(assets))
    case EvalParam(p) => (
      match p
      case Set(inner) => Erase(inner)
      case ExpectInput(name, q) => EvalParam(ExpectInput(name, EraseQuery(q)))
      case _ => e
    )
    case EvalBuiltIn(args) => EvalBuiltIn(EraseEach(args))
    case EvalCompiler(args) => EvalCompiler(EraseEach(args))
    case EvalCoerce(args) => EvalCoerce(EraseEach(args))
    case AdHocDirective(args) => AdHocDirective(EraseEach(args))
    case _ => e
  }

  function EraseEach(es: seq<Expression>): (r: seq<Expression>)
    ensures |r| == |es|
    decreases es, 0
  {
    if es == [] then [] else [Erase(es[0])] + EraseEach(es[1..])
  }

  function ErasePairs(pairs: seq<Pair>): seq<Pair>
    decreases pairs, 0
  {
    if pairs == [] then [] else [ErasePair(pairs[0])] + ErasePairs(pairs[1..])
  }

  function ErasePair(p: Pair): Pair
    decreases p, 0
  {
    Pair(Erase(p.key), Erase(p.value))
  }

  function EraseAssets(assets: seq<AssetExpr>): seq<AssetExpr>
    decreases assets, 0
  {
    if assets == [] then [] else [EraseAsset(assets[0])] + EraseAssets(assets[1..])
  }

  function EraseAsset(a: AssetExpr): AssetExpr
    decreases a, 0
  {
    AssetExpr(Erase(a.policy), Erase(a.assetName), Erase(a.amount))
  }

  function EraseQuery(q: InputQuery): InputQuery
    decreases q, 0
  {
    InputQuery(Erase(q.address), Erase(q.minAmount), q.many)
  }

  function EraseTx(tx: Tx): Tx {
    Tx(
      seq(|tx.inputs|, i requires 0 <= i < |tx.inputs| => EraseInput(tx.inputs[i])),
      seq(|tx.outputs|, i requires 0 <= i < |tx.outputs| => EraseOutput(tx.outputs[i])),
      EraseMints(tx.mints),
      EraseMints(tx.burns),
      seq(|tx.references|, i requires 0 <= i < |tx.references| => Erase(tx.references[i])),
      seq(|tx.collateral|, i requires 0 <= i < |tx.collateral| => Erase(tx.collateral[i])),
      match tx.signers
      case None => None
      case Some(es) => Some(EraseEach(es)),
      seq(|tx.metadata|, i requires 0 <= i < |tx.metadata| => EraseMetadata(tx.metadata[i])),
      match tx.validity
      case None => None
      case Some(e) => Some(Erase(e)))
  }

  function EraseInput(i: Input): Input {
    Input(i.name, Erase(i.utxos))
  }

  function EraseOutput(o: Output): Output {
    Output(Erase(o.address), Erase(o.amount), o.optional)
  }

  function EraseMint(m: Mint): Mint {
    Mint(Erase(m.amount))
  }

  function EraseMints(ms: seq<Mint>): seq<Mint> {
    seq(|ms|, i requires 0 <= i < |ms| => EraseMint(ms[i]))
  }

  function EraseMetadata(m: Metadata): Metadata {
    Metadata(Erase(m.key), Erase(m.value))
  }

  /** Two expressions that differ only in where `Set` wrappers sit. */
  ghost predicate SameUpToSet(a: Expression, b: Expression) {
    Erase(a) == Erase(b)
  }

  // ----- every reader of expressions is blind to the wrappers

  lemma {:induction false} ErasePreservesClassify(e: Expression)
    ensures Classify(Erase(e)) == Classify(e)
    decreases e, 1
  {
    match e
    case List(items) => EraseEachPreservesClassify(items);
    case Map(pairs) => ErasePairsPreservesClassify(pairs);
    case Tuple(elements) => EraseEachPreservesClassify(elements);
    case Struct(_, fields) => EraseEachPreservesClassify(fields);
    case Assets(assets) => EraseAssetsPreservesClassify(assets);
    case EvalParam(p) => if p.Set? { ErasePreservesClassify(p.inner); }
    case _ =>
  }

  lemma {:induction false} EraseEachPreservesClassify(es: seq<Expression>)
    ensures ClassifyEach(EraseEach(es)) == ClassifyEach(es)
    decreases es, 0
  {
    if es != [] {
      ErasePreservesClassify(es[0]);
      EraseEachPreservesClassify(es[1..]);
    }
  }

  lemma {:induction false} ErasePairsPreservesClassify(pairs: seq<Pair>)
    ensures ClassifyPairs(ErasePairs(pairs)) == ClassifyPairs(pairs)
    decreases pairs, 0
  {
    if pairs != [] {
      ErasePairPreservesClassify(pairs[0]);
      ErasePairsPreservesClassify(pairs[1..]);
    }
  }

  lemma {:induction false} ErasePairPreservesClassify(p: Pair)
    ensures ClassifyPair(ErasePair(p)) == ClassifyPair(p)
    decreases p, 0
  {
    ErasePreservesClassify(p.key);
    ErasePreservesClassify(p.value);
  }

  lemma {:induction false} EraseAssetsPreservesClassify(assets: seq<AssetExpr>)
    ensures ClassifyAssets(EraseAssets(assets)) == ClassifyAssets(assets)
    decreases assets, 0
  {
    if assets != [] {
      EraseAssetPreservesClassify(assets[0]);
      EraseAssetsPreservesClassify(assets[1..]);
    }
  }

  lemma {:induction false} EraseAssetPreservesClassify(a: AssetExpr)
    ensures ClassifyAsset(EraseAsset(a)) == ClassifyAsset(a)
    decreases a, 0
  {
    ErasePreservesClassify(a.policy);
    ErasePreservesClassify(a.assetName);
    ErasePreservesClassify(a.amount);
  }

  /** The option-returning readers. */
  lemma {:induction false} ErasePreservesReaders(e: Expression)
    ensures ConstAddress(Erase(e)) == ConstAddress(e)
    ensures ConstUtxoRefs(Erase(e)) == ConstUtxoRefs(e)
    ensures ConstNumber(Erase(e)) == ConstNumber(e)
    ensures ConstBytes(Erase(e)) == ConstBytes(e)
    ensures ExpectInputQuery(Erase(e)) ==
      match ExpectInputQuery(e)
      case None => None
      case Some(q) => Some(EraseQuery(q))
  {
    match e
    case EvalParam(p) => if p.Set? { ErasePreservesReaders(p.inner); }
    case _ =>
  }

  lemma {:induction false} ErasePreservesPolicies(e: Expression)
    ensures ConstPoliciesIn(Erase(e)) == ConstPoliciesIn(e)
    decreases e, 1
  {
    match e
    case List(items) => EraseEachPreservesPolicies(items);
    case Assets(assets) => EraseAssetsPreservesPolicies(assets);
    case EvalParam(p) => if p.Set? { ErasePreservesPolicies(p.inner); }
    case _ =>
  }

  lemma {:induction false} EraseEachPreservesPolicies(es: seq<Expression>)
    ensures ConstPoliciesInEach(EraseEach(es)) == ConstPoliciesInEach(es)
    decreases es, 0
  {
    if es != [] {
      ErasePreservesPolicies(es[0]);
      EraseEachPreservesPolicies(es[1..]);
    }
  }

  lemma {:induction false} EraseAssetsPreservesPolicies(assets: seq<AssetExpr>)
    ensures AssetPolicies(EraseAssets(assets)) == AssetPolicies(assets)
  {
    if assets != [] {
      ErasePreservesReaders(assets[0].policy);
      EraseAssetsPreservesPolicies(assets[1..]);
    }
  }

  /** No reader tells apart two expressions that differ only in their wrappers. */
  lemma {:induction false} ReadersIgnoreSet(a: Expression, b: Expression)
    requires SameUpToSet(a, b)
    ensures Classify(a) == Classify(b)
    ensures ConstAddress(a) == ConstAddress(b)
    ensures ConstUtxoRefs(a) == ConstUtxoRefs(b)
    ensures ConstNumber(a) == ConstNumber(b)
    ensures ConstBytes(a) == ConstBytes(b)
    ensures ConstPoliciesIn(a) == ConstPoliciesIn(b)
  {
    ErasePreservesClassify(a);
    ErasePreservesClassify(b);
    ErasePreservesReaders(a);
    ErasePreservesReaders(b);
    ErasePreservesPolicies(a);
    ErasePreservesPolicies(b);
  }

  // ----- erasing reaches every wrapper

  predicate SetFree(e: Expression)
    decreases e, 1
  {
    match e
    case List(items) => SetFreeEach(items)
    case Map(pairs) => SetFreePairs(pairs)
    case Tuple(elements) => SetFreeEach(elements)
    case Struct(_, fields) => SetFreeEach(fields)
    case Assets(assets) => SetFreeAssets(assets)
    case EvalParam(p) => !p.Set? && (p.ExpectInput? ==> SetFreeQuery(p.query))
    case EvalBuiltIn(args) => SetFreeEach(args)
    case EvalCompiler(args) => SetFreeEach(args)
    case EvalCoerce(args) => SetFreeEach(args)
    case AdHocDirective(args) => SetFreeEach(args)
    case _ => true
  }

  predicate SetFreeEach(es: seq<Expression>)
    decreases es, 0
  {
    es == [] || (SetFree(es[0]) && SetFreeEach(es[1..]))
  }

  predicate SetFreePairs(pairs: seq<Pair>)
    decreases pairs, 0
  {
    pairs == [] || (SetFreePair(pairs[0]) && SetFreePairs(pairs[1..]))
  }

  predicate SetFreePair(p: Pair)
    decreases p, 0
  {
    SetFree(p.key) && SetFree(p.value)
  }

  predicate SetFreeAssets(assets: seq<AssetExpr>)
    decreases assets, 0
  {
    assets == [] || (SetFreeAsset(assets[0]) && SetFreeAssets(assets[1..]))
  }

  predicate SetFreeAsset(a: AssetExpr)
    decreases a, 0
  {
    SetFree(a.policy) && SetFree(a.assetName) && SetFree(a.amount)
  }

  predicate SetFreeQuery(q: InputQuery)
    decreases q, 0
  {
    SetFree(q.address) && SetFree(q.minAmount)
  }

  /** Erasing removes every wrapper, and touches nothing else. */
  lemma {:induction false} EraseRemovesWrappers(e: Expression)
    ensures SetFree(Erase(e))
    ensures SetFree(e) ==> Erase(e) == e
    decreases e, 1
  {
    match e
    case List(items) => EraseEachRemoves(items);
    case Map(pairs) => ErasePairsRemoves(pairs);
    case Tuple(elements) => EraseEachRemoves(elements);
    case Struct(_, fields) => EraseEachRemoves(fields);
    case Assets(assets) => EraseAssetsRemoves(assets);
    case EvalParam(p) =>
      if p.Set? { EraseRemovesWrappers(p.inner); }
      if p.ExpectInput? { EraseQueryRemoves(p.query); }
    case EvalBuiltIn(args) => EraseEachRemoves(args);
    case EvalCompiler(args) => EraseEachRemoves(args);
    case EvalCoerce(args) => EraseEachRemoves(args);
    case AdHocDirective(args) => EraseEachRemoves(args);
    case _ =>
  }

  lemma {:induction false} EraseQueryRemoves(q: InputQuery)
    ensures SetFreeQuery(EraseQuery(q))
    ensures SetFreeQuery(q) ==> EraseQuery(q) == q
    decreases q, 0
  {
    EraseRemovesWrappers(q.address);
    EraseRemovesWrappers(q.minAmount);
  }

  lemma {:induction false} EraseEachRemoves(es: seq<Expression>)
    ensures SetFreeEach(EraseEach(es))
    ensures SetFreeEach(es) ==> EraseEach(es) == es
    decreases es, 0
  {
    if es != [] {
      EraseRemovesWrappers(es[0]);
      EraseEachRemoves(es[1..]);
    }
  }

  lemma {:induction false} ErasePairsRemoves(pairs: seq<Pair>)
    ensures SetFreePairs(ErasePairs(pairs))
    ensures SetFreePairs(pairs) ==> ErasePairs(pairs) == pairs
    decreases pairs, 0
  {
    if pairs != [] {
      ErasePairRemoves(pairs[0]);
      ErasePairsRemoves(pairs[1..]);
    }
  }

  lemma {:induction false} ErasePairRemoves(p: Pair)
    ensures SetFreePair(ErasePair(p))
    ensures SetFreePair(p) ==> ErasePair(p) == p
    decreases p, 0
  {
    EraseRemovesWrappers(p.key);
    EraseRemovesWrappers(p.value);
  }

  lemma {:induction false} EraseAssetsRemoves(assets: seq<AssetExpr>)
    ensures SetFreeAssets(EraseAssets(assets))
    ensures SetFreeAssets(assets) ==> EraseAssets(assets) == assets
    decreases assets, 0
  {
    if assets != [] {
      EraseAssetRemoves(assets[0]);
      EraseAssetsRemoves(assets[1..]);
    }
  }

  lemma {:induction false} EraseAssetRemoves(a: AssetExpr)
    ensures SetFreeAsset(EraseAsset(a))
    ensures SetFreeAsset(a) ==> EraseAsset(a) == a
    decreases a, 0
  {
    EraseRemovesWrappers(a.policy);
    EraseRemovesWrappers(a.assetName);
    EraseRemovesWrappers(a.amount);
  }
}
