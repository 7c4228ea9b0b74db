/** Constness of expressions (crates/tx3-lift/src/expr.rs). */
module Expr {
  import opened Base
  import opened Tir

  datatype ExprKind = Const | ParamDriven | Computed

  /** One step of the accumulator in `combine`. */
  function Join(acc: ExprKind, k: ExprKind): ExprKind {
    if acc.Const? && k.Const? then Const
    else if k.Computed? || acc.Computed? then Computed
    else ParamDriven
  }

  /** The value `combine` folds to, as an upper bound of the kinds it sees. */
  function Combined(kinds: seq<ExprKind>): ExprKind {
    if Computed in kinds then Computed
    else if ParamDriven in kinds then ParamDriven
    else Const
  }

  method Combine(kinds: seq<ExprKind>) returns (acc: ExprKind)
    ensures acc == Combined(kinds)
  {
    acc := Const;
    for i := 0 to |kinds|
      invariant acc == Combined(kinds[..i])
    {
      assert kinds[..i + 1] == kinds[..i] + [kinds[i]];
      acc := Join(acc, kinds[i]);
    }
    assert kinds[..|kinds|] == kinds;
  }

  function Classify(e: Expression): ExprKind
    decreases e, 1
  {
    match e
    case NoExpr => Const
    case Bytes(_) => Const
    case Number(_) => Const
    case Bool(_) => Const
    case String(_) => Const
    case Address(_) => Const
    case Hash(_) => Const
    case UtxoRefs(_) => Const
    case UtxoSet => Const
    case List(items) => Combined(ClassifyEach(items))
    case Map(pairs) => Combined(ClassifyPairs(pairs))
    case Tuple(elements) => Combined(ClassifyEach(elements))
    case Struct(_, fields) => Combined(ClassifyEach(fields))
    case Assets(assets) => Combined(ClassifyAssets(assets))
    case EvalParam(p) => (
      match p
      case Set(inner) => Classify(inner)
      case ExpectValue(_) => ParamDriven
      case ExpectInput(_, _) => ParamDriven
      case ExpectFees => ParamDriven
    )
    case EvalBuiltIn(_) => Computed
    case EvalCompiler(_) => Computed
    case EvalCoerce(_) => Computed
    case AdHocDirective(_) => Computed
  }

  function ClassifyEach(es: seq<Expression>): seq<ExprKind>
    decreases es, 0
  {
    if es == [] then [] else [Classify(es[0])] + ClassifyEach(es[1..])
  }

  function ClassifyPairs(pairs: seq<Pair>): seq<ExprKind>
    decreases pairs, 0
  {
    if pairs == [] then [] else ClassifyPair(pairs[0]) + ClassifyPairs(pairs[1..])
  }

  function ClassifyPair(p: Pair): seq<ExprKind>
    decreases p, 0
  {
    [Classify(p.key), Classify(p.value)]
  }

  function ClassifyAssets(assets: seq<AssetExpr>): seq<ExprKind>
    decreases assets, 0
  {
    if assets == [] then [] else ClassifyAsset(assets[0]) + ClassifyAssets(assets[1..])
  }

  function ClassifyAsset(a: AssetExpr): seq<ExprKind>
    decreases a, 0
  {
    [Classify(a.policy), Classify(a.assetName), Classify(a.amount)]
  }

  function ConstAddress(e: Expression): Option<Base.Bytes> {
    match e
    case Address(bytes) => Some(bytes)
    case EvalParam(Set(inner)) => ConstAddress(inner)
    case _ => None
  }

  function ConstUtxoRefs(e: Expression): Option<seq<UtxoRef>> {
    match e
    case UtxoRefs(refs) => Some(refs)
    case EvalParam(Set(inner)) => ConstUtxoRefs(inner)
    case _ => None
  }

  function ConstNumber(e: Expression): Option<int> {
    match e
    case Number(n) => Some(n)
    case EvalParam(Set(inner)) => ConstNumber(inner)
    case _ => None
  }

  function ConstBytes(e: Expression): Option<Base.Bytes> {
    match e
    case Bytes(b) => Some(b)
    case Hash(b) => Some(b)
    case EvalParam(Set(inner)) => ConstBytes(inner)
    case _ => None
  }

  /** The query of an input that the caller still has to resolve. */
  function ExpectInputQuery(e: Expression): Option<InputQuery> {
    match e
    case EvalParam(ExpectInput(_, q)) => Some(q)
    case EvalParam(Set(inner)) => ExpectInputQuery(inner)
    case _ => None
  }

  /** The policies `const_policies_in` reports, in the order it meets them. */
  function ConstPoliciesIn(e: Expression): seq<Base.Bytes>
    decreases e, 1
  {
    match e
    case Assets(assets) => AssetPolicies(assets)
    case List(items) => ConstPoliciesInEach(items)
    case EvalParam(Set(inner)) => ConstPoliciesIn(inner)
    case _ => []
  }

  function ConstPoliciesInEach(es: seq<Expression>): seq<Base.Bytes>
    decreases es, 0
  {
    if es == [] then [] else ConstPoliciesIn(es[0]) + ConstPoliciesInEach(es[1..])
  }

  function AssetPolicies(assets: seq<AssetExpr>): seq<Base.Bytes> {
    if assets == [] then [] else AssetPolicy(assets[0]) + AssetPolicies(assets[1..])
  }

  /** Empty policy bytes (the native coin) are not reported. */
  function AssetPolicy(a: AssetExpr): seq<Base.Bytes> {
    match ConstBytes(a.policy)
    case Some(p) => if p == [] then [] else [p]
    case None => []
  }

  /** The recursive walk that pushes onto `out`. */
  method CollectConstPolicies(e: Expression, out0: seq<Base.Bytes>) returns (out: seq<Base.Bytes>)
    ensures out == out0 + ConstPoliciesIn(e)
    decreases e, 1
  {
    match e
    case Assets(assets) => out := CollectAssetPolicies(assets, out0);
    case List(items) => out := CollectListPolicies(items, out0);
    case EvalParam(p) =>
      if p.Set? {
        out := CollectConstPolicies(p.inner, out0);
      } else {
        out := out0;
      }
    case _ => out := out0;
  }

  method CollectAssetPolicies(assets: seq<AssetExpr>, out0: seq<Base.Bytes>) returns (out: seq<Base.Bytes>)
    ensures out == out0 + AssetPolicies(assets)
  {
    out := out0;
    for i := 0 to |assets|
      invariant out0 + AssetPolicies(assets) == out + AssetPolicies(assets[i..])
    {
      Concat(out, AssetPolicy(assets[i]), AssetPolicies(assets[i..][1..]));
      assert assets[i..][1..] == assets[i + 1..];
      var p := ConstBytes(assets[i].policy);
      if p.Some? && p.value != [] {
        out := out + [p.value];
      }
    }
  }

  method CollectListPolicies(items: seq<Expression>, out0: seq<Base.Bytes>) returns (out: seq<Base.Bytes>)
    ensures out == out0 + ConstPoliciesInEach(items)
    decreases items, 0
  {
    out := out0;
    for i := 0 to |items|
      invariant out0 + ConstPoliciesInEach(items) == out + ConstPoliciesInEach(items[i..])
    {
      Concat(out, ConstPoliciesIn(items[i]), ConstPoliciesInEach(items[i..][1..]));
      assert items[i..][1..] == items[i + 1..];
      out := CollectConstPolicies(items[i], out);
    }
  }

  lemma {:induction false} Concat<T>(a: seq<T>, b: seq<T>, c: seq<T>)
    ensures a + (b + c) == (a + b) + c
    ensures b == [] ==> a + b == a
  {
  }

  // ----- what the classification means

  /** An independent reading of `e`: some node of kind `k` is met on the way down
      through containers and `Set` wrappers. */
  ghost predicate Mentions(e: Expression, k: ExprKind)
    decreases e, 1
  {
    match e
    case List(items) => MentionsEach(items, k)
    case Map(pairs) => exists i | 0 <= i < |pairs| :: MentionsPair(pairs[i], k)
    case Tuple(elements) => MentionsEach(elements, k)
    case Struct(_, fields) => MentionsEach(fields, k)
    case Assets(assets) => exists i | 0 <= i < |assets| :: MentionsAsset(assets[i], k)
    case EvalParam(p) => if p.Set? then Mentions(p.inner, k) else k.ParamDriven?
    case EvalBuiltIn(_) => k.Computed?
    case EvalCompiler(_) => k.Computed?
    case EvalCoerce(_) => k.Computed?
    case AdHocDirective(_) => k.Computed?
    case _ => false
  }

  ghost predicate MentionsEach(es: seq<Expression>, k: ExprKind)
    decreases es, 0
  {
    exists i | 0 <= i < |es| :: Mentions(es[i], k)
  }

  ghost predicate MentionsPair(p: Pair, k: ExprKind)
    decreases p, 0
  {
    Mentions(p.key, k) || Mentions(p.value, k)
  }

  ghost predicate MentionsAsset(a: AssetExpr, k: ExprKind)
    decreases a, 0
  {
    Mentions(a.policy, k) || Mentions(a.assetName, k) || Mentions(a.amount, k)
  }

  /** `classify` answers `Computed` exactly when an evaluation node is met, `Const` exactly
      when neither an evaluation node nor an unresolved parameter is, and `ParamDriven` in
      between. */
  lemma {:induction false} ClassifyMeaning(e: Expression)
    ensures Classify(e).Computed? <==> Mentions(e, Computed)
    ensures Classify(e).Const? <==> !Mentions(e, Computed) && !Mentions(e, ParamDriven)
    decreases e, 1
  {
    match e
    case List(items) => ClassifyEachMeaning(items);
    case Map(pairs) => ClassifyPairsMeaning(pairs);
    case Tuple(elements) => ClassifyEachMeaning(elements);
    case Struct(_, fields) => ClassifyEachMeaning(fields);
    case Assets(assets) => ClassifyAssetsMeaning(assets);
    case EvalParam(p) => if p.Set? { ClassifyMeaning(p.inner); }
    case _ =>
  }

  lemma {:induction false} ClassifyEachMeaning(es: seq<Expression>)
    ensures Computed in ClassifyEach(es) <==> MentionsEach(es, Computed)
    ensures Computed !in ClassifyEach(es) ==> (ParamDriven in ClassifyEach(es) <==> MentionsEach(es, ParamDriven))
    decreases es, 0
  {
    if es != [] {
      ClassifyMeaning(es[0]);
      ClassifyEachMeaning(es[1..]);
      assert forall i | 0 < i < |es| :: es[i] == es[1..][i - 1];
    }
  }

  lemma {:induction false} ClassifyPairsMeaning(pairs: seq<Pair>)
    ensures Computed in ClassifyPairs(pairs) <==> exists i | 0 <= i < |pairs| :: MentionsPair(pairs[i], Computed)
    ensures Computed !in ClassifyPairs(pairs) ==>
      (ParamDriven in ClassifyPairs(pairs) <==> exists i | 0 <= i < |pairs| :: MentionsPair(pairs[i], ParamDriven))
    decreases pairs, 0
  {
    if pairs != [] {
      ClassifyPairMeaning(pairs[0]);
      ClassifyPairsMeaning(pairs[1..]);
      assert forall i | 0 < i < |pairs| :: pairs[i] == pairs[1..][i - 1];
    }
  }

  lemma {:induction false} ClassifyPairMeaning(p: Pair)
    ensures Computed in ClassifyPair(p) <==> MentionsPair(p, Computed)
    ensures Computed !in ClassifyPair(p) ==> (ParamDriven in ClassifyPair(p) <==> MentionsPair(p, ParamDriven))
    decreases p, 0
  {
    ClassifyMeaning(p.key);
    ClassifyMeaning(p.value);
  }

  lemma {:induction false} ClassifyAssetsMeaning(assets: seq<AssetExpr>)
    ensures Computed in ClassifyAssets(assets) <==> exists i | 0 <= i < |assets| :: MentionsAsset(assets[i], Computed)
    ensures Computed !in ClassifyAssets(assets) ==>
      (ParamDriven in ClassifyAssets(assets) <==> exists i | 0 <= i < |assets| :: MentionsAsset(assets[i], ParamDriven))
    decreases assets, 0
  {
    if assets != [] {
      ClassifyAssetMeaning(assets[0]);
      ClassifyAssetsMeaning(assets[1..]);
      assert forall i | 0 < i < |assets| :: assets[i] == assets[1..][i - 1];
    }
  }

  lemma {:induction false} ClassifyAssetMeaning(a: AssetExpr)
    ensures Computed in ClassifyAsset(a) <==> MentionsAsset(a, Computed)
    ensures Computed !in ClassifyAsset(a) ==> (ParamDriven in ClassifyAsset(a) <==> MentionsAsset(a, ParamDriven))
    decreases a, 0
  {
    ClassifyMeaning(a.policy);
    ClassifyMeaning(a.assetName);
    ClassifyMeaning(a.amount);
  }
}
