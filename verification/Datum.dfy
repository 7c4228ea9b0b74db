/** Plutus data as TIR expressions (crates/tx3-lift-cardano/src/datum.rs). */
module Datum {
  import opened Base
  import opened Payload
  import T = Tir

  const I128_MIN := -0x8000_0000_0000_0000_0000_0000_0000_0000
  const I128_END := 0x8000_0000_0000_0000_0000_0000_0000_0000

  function Decode(data: PlutusData): T.Expression
    decreases data, 1
  {
    match data
    case BoundedBytes(b) => T.Bytes(b)
    case BigInt(bi) => DecodeBigInt(bi)
    case Constr(tag, any, _, fields) =>
      T.Struct(match any case Some(c) => c case None => tag, DecodeEach(fields))
    case Array(_, items) => T.List(DecodeEach(items))
    case Map(pairs) => T.Map(DecodePairs(pairs))
  }

  function DecodeEach(items: seq<PlutusData>): seq<T.Expression>
    decreases items, 0
  {
    if items == [] then [] else [Decode(items[0])] + DecodeEach(items[1..])
  }

  function DecodePairs(pairs: seq<DataPair>): seq<T.Pair>
    decreases pairs, 0
  {
    if pairs == [] then [] else [DecodePair(pairs[0])] + DecodePairs(pairs[1..])
  }

  function DecodePair(p: DataPair): T.Pair
    decreases p, 0
  {
    T.Pair(Decode(p.key), Decode(p.value))
  }

  function DecodeBigInt(bi: BigInteger): T.Expression {
    match bi
    case Int(n) => if I128_MIN <= n < I128_END then T.Number(n) else T.Bytes([])
    case BigUInt(bytes) => T.Bytes(bytes)
    case BigNInt(bytes) => T.Bytes(bytes)
  }

  /** Every CBOR integer (section 3.1 of RFC 8949) fits 128 bits, so the empty-bytes fallback
      never fires. */
  lemma {:induction false} CborIntegersAreNumbers(n: CborInt)
    ensures DecodeBigInt(Int(n)) == T.Number(n)
  {
  }

  // ----- what decoding forgets

  /** The representative of everything that decodes alike: definite arrays, constructors by
      their plain tag, and big integers given as bytes as those bytes. */
  function Canon(data: PlutusData): PlutusData
    decreases data, 1
  {
    match data
    case BoundedBytes(_) => data
    case BigInt(bi) => if bi.Int? then data else BoundedBytes(bi.bytes)
    case Constr(tag, any, _, fields) =>
      Constr(match any case Some(c) => c case None => tag, None, true, CanonEach(fields))
    case Array(_, items) => Array(true, CanonEach(items))
    case Map(pairs) => Map(CanonPairs(pairs))
  }

  function CanonEach(items: seq<PlutusData>): seq<PlutusData>
    decreases items, 0
  {
    if items == [] then [] else [Canon(items[0])] + CanonEach(items[1..])
  }

  function CanonPairs(pairs: seq<DataPair>): seq<DataPair>
    decreases pairs, 0
  {
    if pairs == [] then [] else [CanonPair(pairs[0])] + CanonPairs(pairs[1..])
  }

  function CanonPair(p: DataPair): DataPair
    decreases p, 0
  {
    DataPair(Canon(p.key), Canon(p.value))
  }

  /** A left inverse of decoding. Expressions that decoding never produces have no data. */
  function Encode(e: T.Expression): Option<PlutusData>
    decreases e, 1
  {
    match e
    case Bytes(b) => Some(BoundedBytes(b))
    case Number(n) => if -TWO_TO_THE_64 <= n < TWO_TO_THE_64 then Some(BigInt(Int(n))) else None
    case Struct(c, fields) => (
      match EncodeEach(fields)
      case Some(items) => if c < TWO_TO_THE_64 then Some(Constr(c, None, true, items)) else None
      case None => None
    )
    case List(items) => (
      match EncodeEach(items)
      case Some(xs) => Some(Array(true, xs))
      case None => None
    )
    case Map(pairs) => (
      match EncodePairs(pairs)
      case Some(xs) => Some(Map(xs))
      case None => None
    )
    case _ => None
  }

  function EncodeEach(es: seq<T.Expression>): Option<seq<PlutusData>>
    decreases es, 0
  {
    if es == [] then Some([])
    else
      match (Encode(es[0]), EncodeEach(es[1..]))
      case (Some(x), Some(xs)) => Some([x] + xs)
      case _ => None
  }

  function EncodePairs(ps: seq<T.Pair>): Option<seq<DataPair>>
    decreases ps, 0
  {
    if ps == [] then Some([])
    else
      match (EncodePair(ps[0]), EncodePairs(ps[1..]))
      case (Some(x), Some(xs)) => Some([x] + xs)
      case _ => None
  }

  function EncodePair(p: T.Pair): Option<DataPair>
    decreases p, 0
  {
    match (Encode(p.key), Encode(p.value))
    case (Some(k), Some(v)) => Some(DataPair(k, v))
    case _ => None
  }

  lemma {:induction false} EncodeDecode(data: PlutusData)
    ensures Encode(Decode(data)) == Some(Canon(data))
    decreases data, 1
  {
    match data
    case Constr(_, _, _, fields) => EncodeDecodeEach(fields);
    case Array(_, items) => EncodeDecodeEach(items);
    case Map(pairs) => EncodeDecodePairs(pairs);
    case _ =>
  }

  lemma {:induction false} EncodeDecodeEach(items: seq<PlutusData>)
    ensures EncodeEach(DecodeEach(items)) == Some(CanonEach(items))
    decreases items, 0
  {
    if items != [] {
      EncodeDecode(items[0]);
      EncodeDecodeEach(items[1..]);
    }
  }

  lemma {:induction false} EncodeDecodePairs(pairs: seq<DataPair>)
    ensures EncodePairs(DecodePairs(pairs)) == Some(CanonPairs(pairs))
    decreases pairs, 0
  {
    if pairs != [] {
      EncodeDecodePair(pairs[0]);
      EncodeDecodePairs(pairs[1..]);
    }
  }

  lemma {:induction false} EncodeDecodePair(p: DataPair)
    ensures EncodePair(DecodePair(p)) == Some(CanonPair(p))
    decreases p, 0
  {
    EncodeDecode(p.key);
    EncodeDecode(p.value);
  }

  lemma {:induction false} DecodeCanon(data: PlutusData)
    ensures Decode(Canon(data)) == Decode(data)
    decreases data, 1
  {
    match data
    case Constr(_, _, _, fields) => DecodeCanonEach(fields);
    case Array(_, items) => DecodeCanonEach(items);
    case Map(pairs) => DecodeCanonPairs(pairs);
    case _ =>
  }

  lemma {:induction false} DecodeCanonEach(items: seq<PlutusData>)
    ensures DecodeEach(CanonEach(items)) == DecodeEach(items)
    decreases items, 0
  {
    if items != [] {
      DecodeCanon(items[0]);
      DecodeCanonEach(items[1..]);
    }
  }

  lemma {:induction false} DecodeCanonPairs(pairs: seq<DataPair>)
    ensures DecodePairs(CanonPairs(pairs)) == DecodePairs(pairs)
    decreases pairs, 0
  {
    if pairs != [] {
      DecodeCanonPair(pairs[0]);
      DecodeCanonPairs(pairs[1..]);
    }
  }

  lemma {:induction false} DecodeCanonPair(p: DataPair)
    ensures DecodePair(CanonPair(p)) == DecodePair(p)
    decreases p, 0
  {
    DecodeCanon(p.key);
    DecodeCanon(p.value);
  }

  /** Two data decode to the same expression exactly when they have the same representative. */
  lemma {:induction false} DecodeKernel(a: PlutusData, b: PlutusData)
    ensures Decode(a) == Decode(b) <==> Canon(a) == Canon(b)
  {
    EncodeDecode(a);
    EncodeDecode(b);
    DecodeCanon(a);
    DecodeCanon(b);
  }

  // ----- the fragment on which nothing but the array form is lost

  predicate Plain(data: PlutusData)
    decreases data, 1
  {
    match data
    case BoundedBytes(_) => true
    case BigInt(bi) => bi.Int?
    case Constr(_, any, _, fields) => any.None? && PlainEach(fields)
    case Array(_, items) => PlainEach(items)
    case Map(pairs) => PlainPairs(pairs)
  }

  predicate PlainEach(items: seq<PlutusData>)
    decreases items, 0
  {
    items == [] || (Plain(items[0]) && PlainEach(items[1..]))
  }

  predicate PlainPairs(pairs: seq<DataPair>)
    decreases pairs, 0
  {
    pairs == [] || (PlainPair(pairs[0]) && PlainPairs(pairs[1..]))
  }

  predicate PlainPair(p: DataPair)
    decreases p, 0
  {
    Plain(p.key) && Plain(p.value)
  }

  /** Equality up to definite and indefinite arrays. */
  ghost predicate SameUpToForm(a: PlutusData, b: PlutusData)
    decreases a, 1
  {
    match (a, b)
    case (BoundedBytes(x), BoundedBytes(y)) => x == y
    case (BigInt(x), BigInt(y)) => x == y
    case (Constr(s, x, _, fs), Constr(t, y, _, gs)) => s == t && x == y && SameEach(fs, gs)
    case (Array(_, xs), Array(_, ys)) => SameEach(xs, ys)
    case (Map(ps), Map(qs)) => SamePairs(ps, qs)
    case _ => false
  }

  ghost predicate SameEach(xs: seq<PlutusData>, ys: seq<PlutusData>)
    decreases xs, 0
  {
    |xs| == |ys| && (xs == [] || (SameUpToForm(xs[0], ys[0]) && SameEach(xs[1..], ys[1..])))
  }

  ghost predicate SamePairs(ps: seq<DataPair>, qs: seq<DataPair>)
    decreases ps, 0
  {
    |ps| == |qs| && (ps == [] || (SamePair(ps[0], qs[0]) && SamePairs(ps[1..], qs[1..])))
  }

  ghost predicate SamePair(p: DataPair, q: DataPair)
    decreases p, 0
  {
    SameUpToForm(p.key, q.key) && SameUpToForm(p.value, q.value)
  }

  /** The representative differs from the data in array form alone exactly when the data is
      plain. */
  lemma {:induction false} CanonSame(data: PlutusData)
    ensures SameUpToForm(Canon(data), data) <==> Plain(data)
    decreases data, 1
  {
    match data
    case Constr(_, _, _, fields) => CanonSameEach(fields);
    case Array(_, items) => CanonSameEach(items);
    case Map(pairs) => CanonSamePairs(pairs);
    case _ =>
  }

  lemma {:induction false} CanonSameEach(items: seq<PlutusData>)
    ensures SameEach(CanonEach(items), items) <==> PlainEach(items)
    decreases items, 0
  {
    if items != [] {
      CanonSame(items[0]);
      CanonSameEach(items[1..]);
      assert CanonEach(items)[1..] == CanonEach(items[1..]);
      CanonLength(items[1..]);
    }
  }

  lemma {:induction false} CanonLength(items: seq<PlutusData>)
    ensures |CanonEach(items)| == |items|
  {
    if items != [] { CanonLength(items[1..]); }
  }

  lemma {:induction false} CanonSamePairs(pairs: seq<DataPair>)
    ensures SamePairs(CanonPairs(pairs), pairs) <==> PlainPairs(pairs)
    decreases pairs, 0
  {
    if pairs != [] {
      CanonSamePair(pairs[0]);
      CanonSamePairs(pairs[1..]);
      assert CanonPairs(pairs)[1..] == CanonPairs(pairs[1..]);
      CanonPairsLength(pairs[1..]);
    }
  }

  lemma {:induction false} CanonPairsLength(pairs: seq<DataPair>)
    ensures |CanonPairs(pairs)| == |pairs|
  {
    if pairs != [] { CanonPairsLength(pairs[1..]); }
  }

  lemma {:induction false} CanonSamePair(p: DataPair)
    ensures SamePair(CanonPair(p), p) <==> PlainPair(p)
    decreases p, 0
  {
    CanonSame(p.key);
    CanonSame(p.value);
  }

  /** Decoding can be undone up to array form exactly on plain data. */
  lemma {:induction false} DecodeInvertible(data: PlutusData)
    ensures Encode(Decode(data)).Some?
    ensures SameUpToForm(Encode(Decode(data)).value, data) <==> Plain(data)
  {
    EncodeDecode(data);
    CanonSame(data);
  }
}
