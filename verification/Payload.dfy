/** A decoded Cardano transaction and the outputs its inputs resolve to
    (crates/tx3-lift-cardano/src/payload.rs). CBOR decoding itself is foreign code: a
    payload that does not decode has `parsed == None`. */
module Payload {
  import opened Base

  datatype PlutusData =
    | BoundedBytes(bytes: Bytes)
    | BigInt(big: BigInteger)
    | Constr(tag: u64, anyConstructor: Option<u64>, definite: bool, fields: seq<PlutusData>)
    | Array(definite: bool, items: seq<PlutusData>)
    | Map(pairs: seq<DataPair>)

  datatype DataPair = DataPair(key: PlutusData, value: PlutusData)

  /** A CBOR integer: major type 0 or 1 with a 64-bit argument. */
  type CborInt = n: int | -TWO_TO_THE_64 <= n < TWO_TO_THE_64

  datatype BigInteger = Int(int_: CborInt) | BigUInt(bytes: Bytes) | BigNInt(bytes: Bytes)

  datatype DatumOption = Data(data: PlutusData) | DatumHash(hash: Bytes)

  /** `address` is `None` when the address bytes do not parse; `policies` are the policies
      of the assets the output holds. */
  datatype TxOutput = TxOutput(address: Option<Bytes>, lovelace: nat, policies: seq<Bytes>, datum: Option<DatumOption>)

  datatype TxInput = TxInput(hash: Bytes, index: u64)

  datatype MintAsset = MintAsset(name: Bytes, coin: int)

  datatype MintEntry = MintEntry(policy: Bytes, assets: seq<MintAsset>)

  datatype CardanoTx = CardanoTx(
    hash: Bytes,
    inputs: seq<TxInput>,
    outputs: seq<TxOutput>,
    mints: seq<MintEntry>,
    references: seq<TxInput>,
    collateral: seq<TxInput>,
    signers: seq<Bytes>,
    metadataLabels: seq<u64>,
    validityStart: Option<u64>,
    ttl: Option<u64>)

  /** A resolved output as delivered: its bytes may fail to decode. */
  datatype Resolved = Undecodable | Decoded(output: TxOutput)

  type ResolvedInputs = map<UtxoRef, Resolved>

  datatype CardanoPayload = CardanoPayload(parsed: Option<CardanoTx>, resolved: ResolvedInputs)

  /** The lookup key of an input. The index is narrowed to 32 bits. */
  function Key(i: TxInput): UtxoRef {
    UtxoRef(i.hash, Truncate32(i.index))
  }

  /** The output an input spends, when it was delivered and decodes. */
  function ResolvedOutput(resolved: ResolvedInputs, i: TxInput): Option<TxOutput> {
    if Key(i) in resolved && resolved[Key(i)].Decoded? then Some(resolved[Key(i)].output) else None
  }

  function ResolvedAddress(resolved: ResolvedInputs, i: TxInput): Option<Bytes> {
    match ResolvedOutput(resolved, i)
    case Some(output) => output.address
    case None => None
  }

  predicate AnyPositive(m: MintEntry) {
    exists a | a in m.assets :: a.coin > 0
  }

  predicate AnyNegative(m: MintEntry) {
    exists a | a in m.assets :: a.coin < 0
  }
}
