/** The part of the transaction intermediate representation the lifter looks at.
    The crate that defines it is not part of this repository; the constructors
    are the ones the source matches on. */
module Tir {
  import opened Base

  datatype Expression =
    | NoExpr
    | Bytes(bytes: Base.Bytes)
    | Number(number: int)
    | Bool(flag: bool)
    | String(text: string)
    | Address(address: Base.Bytes)
    | Hash(hash: Base.Bytes)
    | UtxoRefs(refs: seq<UtxoRef>)
    | UtxoSet
    | List(items: seq<Expression>)
    | Map(pairs: seq<Pair>)
    | Tuple(elements: seq<Expression>)
    | Struct(constructor_: nat, fields: seq<Expression>)
    | Assets(assets: seq<AssetExpr>)
    | EvalParam(param: Param)
    | EvalBuiltIn(args: seq<Expression>)
    | EvalCompiler(args: seq<Expression>)
    | EvalCoerce(args: seq<Expression>)
    | AdHocDirective(args: seq<Expression>)

  datatype Pair = Pair(key: Expression, value: Expression)

  datatype AssetExpr = AssetExpr(policy: Expression, assetName: Expression, amount: Expression)

  datatype Param =
    | Set(inner: Expression)
    | ExpectValue(name: string)
    | ExpectInput(name: string, query: InputQuery)
    | ExpectFees

  datatype InputQuery = InputQuery(address: Expression, minAmount: Expression, many: bool)

  datatype Input = Input(name: string, utxos: Expression)

  datatype Output = Output(address: Expression, amount: Expression, optional: bool)

  datatype Mint = Mint(amount: Expression)

  datatype Metadata = Metadata(key: Expression, value: Expression)

  datatype Tx = Tx(
    inputs: seq<Input>,
    outputs: seq<Output>,
    mints: seq<Mint>,
    burns: seq<Mint>,
    references: seq<Expression>,
    collateral: seq<Expression>,
    signers: Option<seq<Expression>>,
    metadata: seq<Metadata>,
    validity: Option<Expression>)
}
