/** The two shapes of environment strings that become anchors: `txid#index` references and
    policy ids (crates/tx3-lift/src/anchors.rs). Strings are their UTF-8 bytes. */
module RefParsing {
  import opened Base

  const HASH: byte := 0x23

  const TXID_DIGITS := 64
  const POLICY_DIGITS := 56

  // ----- hex

  function HexValue(c: byte): Option<byte> {
    if 0x30 <= c <= 0x39 then Some(c - 0x30)
    else if 0x61 <= c <= 0x66 then Some(c - 0x61 + 10)
    else if 0x41 <= c <= 0x46 then Some(c - 0x41 + 10)
    else None
  }

  function HexDigit(v: byte): byte
    requires v < 16
  {
    if v < 10 then 0x30 + v else 0x61 + v - 10
  }

  /** `hex::decode`: an even number of digits of either case. */
  function HexDecode(s: Bytes): Option<Bytes> {
    if s == [] then Some([])
    else if |s| == 1 then None
    else
      match (HexValue(s[0]), HexValue(s[1]), HexDecode(s[2..]))
      case (Some(hi), Some(lo), Some(rest)) => Some([16 * hi + lo] + rest)
      case _ => None
  }

  /** Lower-case printing. */
  function HexEncode(b: Bytes): Bytes {
    if b == [] then [] else [HexDigit(b[0] / 16), HexDigit(b[0] % 16)] + HexEncode(b[1..])
  }

  predicate AllHex(s: Bytes) {
    forall i | 0 <= i < |s| :: HexValue(s[i]).Some?
  }

  lemma {:induction false} AllHexTail(s: Bytes)
    requires |s| >= 2
    ensures AllHex(s) <==> HexValue(s[0]).Some? && HexValue(s[1]).Some? && AllHex(s[2..])
  {
    assert forall i | 2 <= i < |s| :: s[i] == s[2..][i - 2];
  }

  lemma {:induction false} HexDecodeAccepts(s: Bytes)
    ensures HexDecode(s).Some? <==> |s| % 2 == 0 && AllHex(s)
    ensures HexDecode(s).Some? ==> 2 * |HexDecode(s).value| == |s|
  {
    if |s| >= 2 {
      HexDecodeAccepts(s[2..]);
      AllHexTail(s);
    }
  }

  lemma {:induction false} HexRoundTrip(b: Bytes)
    ensures |HexEncode(b)| == 2 * |b|
    ensures HexDecode(HexEncode(b)) == Some(b)
    ensures HASH !in HexEncode(b)
  {
    if b != [] {
      HexRoundTrip(b[1..]);
      var s := HexEncode(b);
      assert s[2..] == HexEncode(b[1..]);
      assert b == [16 * (b[0] / 16) + b[0] % 16] + b[1..];
    }
  }

  // ----- decimal

  predicate IsDigit(c: byte) {
    0x30 <= c <= 0x39
  }

  predicate AllDigits(s: Bytes) {
    forall i | 0 <= i < |s| :: IsDigit(s[i])
  }

  /** The number a digit string denotes. */
  function Decimal(s: Bytes): nat
    requires AllDigits(s)
  {
    if s == [] then 0 else 10 * Decimal(s[..|s| - 1]) + (s[|s| - 1] - 0x30)
  }

  function PrintDecimal(n: nat): (s: Bytes)
    ensures s != [] && AllDigits(s)
  {
    if n < 10 then [0x30 + n] else PrintDecimal(n / 10) + [0x30 + n % 10]
  }

  lemma {:induction false} DecimalRoundTrip(n: nat)
    ensures Decimal(PrintDecimal(n)) == n
  {
    if n >= 10 {
      DecimalRoundTrip(n / 10);
      var s := PrintDecimal(n);
      assert s[..|s| - 1] == PrintDecimal(n / 10);
    } else {
      assert PrintDecimal(n)[..0] == [];
    }
  }

  lemma {:induction false} DecimalPrefix(s: Bytes, k: nat)
    requires AllDigits(s) && k <= |s|
    ensures Decimal(s[..k]) <= Decimal(s)
    decreases |s|
  {
    if k < |s| {
      DecimalPrefix(s[..|s| - 1], k);
      assert s[..|s| - 1][..k] == s[..k];
    } else {
      assert s[..k] == s;
    }
  }

  /** `str::parse::<u32>` on a string of digits: multiply and add with overflow checks. */
  method ParseU32(s: Bytes) returns (r: Option<u32>)
    requires s != [] && AllDigits(s)
    ensures r == if Decimal(s) <= U32_MAX then Some(Decimal(s)) else None
  {
    var n: u32 := 0;
    for i := 0 to |s|
      invariant n == Decimal(s[..i])
    {
      assert s[..i + 1][..i] == s[..i];
      DecimalPrefix(s, i + 1);
      var tenfold := 10 * n;
      if tenfold > U32_MAX {
        return None;
      }
      var next := tenfold + (s[i] - 0x30);
      if next > U32_MAX {
        return None;
      }
      n := next;
    }
    assert s[..|s|] == s;
    return Some(n);
  }

  // ----- references and policies

  /** The position of the first `#`. */
  function SplitAt(s: Bytes): Option<nat> {
    if s == [] then None
    else if s[0] == HASH then Some(0)
    else
      match SplitAt(s[1..])
      case Some(i) => Some(i + 1)
      case None => None
  }

  lemma {:induction false} SplitAtSound(s: Bytes)
    ensures SplitAt(s).None? <==> HASH !in s
    ensures forall i | SplitAt(s) == Some(i) :: i < |s| && s[i] == HASH && HASH !in s[..i]
  {
    if s != [] && s[0] != HASH {
      SplitAtSound(s[1..]);
      var r := SplitAt(s[1..]);
      if r.Some? {
        assert s[..r.value + 1] == [s[0]] + s[1..][..r.value];
      }
    }
  }

  function ParsedUtxoRef(s: Bytes): Option<UtxoRef> {
    match SplitAt(s)
    case None => None
    case Some(i) =>
      SplitAtSound(s);
      var txidHex, indexStr := s[..i], s[i + 1..];
      if |txidHex| != TXID_DIGITS || indexStr == [] || !AllDigits(indexStr) then None
      else
        match HexDecode(txidHex)
        case None => None
        case Some(txid) => if Decimal(indexStr) <= U32_MAX then Some(UtxoRef(txid, Decimal(indexStr))) else None
  }

  method ParseUtxoRef(s: Bytes) returns (r: Option<UtxoRef>)
    ensures r == ParsedUtxoRef(s)
  {
    var split := SplitAt(s);
    if split.None? {
      return None;
    }
    SplitAtSound(s);
    var i := split.value;
    var txidHex, indexStr := s[..i], s[i + 1..];
    if |txidHex| != TXID_DIGITS {
      return None;
    }
    if indexStr == [] || !AllDigits(indexStr) {
      return None;
    }
    var txid := HexDecode(txidHex);
    if txid.None? {
      return None;
    }
    var index := ParseU32(indexStr);
    if index.None? {
      return None;
    }
    return Some(UtxoRef(txid.value, index.value));
  }

  function ParsePolicy(s: Bytes): Option<Bytes> {
    if |s| != POLICY_DIGITS then None else HexDecode(s)
  }

  /** How a reference is written. */
  function PrintUtxoRef(r: UtxoRef): Bytes {
    HexEncode(r.txid) + [HASH] + PrintDecimal(r.index)
  }

  lemma {:induction false} SplitFirst(pre: Bytes, post: Bytes)
    requires HASH !in pre
    ensures SplitAt(pre + [HASH] + post) == Some(|pre|)
  {
    var s := pre + [HASH] + post;
    if pre != [] {
      SplitFirst(pre[1..], post);
      assert s[1..] == pre[1..] + [HASH] + post;
      assert s[0] == pre[0] && pre[0] in pre;
    }
  }

  /** Parsing inverts printing for every 32-byte transaction id and every index. */
  lemma {:induction false} ParsePrint(r: UtxoRef)
    requires |r.txid| == 32
    ensures ParsedUtxoRef(PrintUtxoRef(r)) == Some(r)
  {
    var hex, digits := HexEncode(r.txid), PrintDecimal(r.index);
    var s := PrintUtxoRef(r);
    HexRoundTrip(r.txid);
    DecimalRoundTrip(r.index);
    SplitFirst(hex, digits);
    assert s[..|hex|] == hex && s[|hex| + 1..] == digits;
  }

  /** The language of references, position by position. */
  predicate IsUtxoRefText(s: Bytes) {
    && |s| > TXID_DIGITS + 1
    && AllHex(s[..TXID_DIGITS])
    && s[TXID_DIGITS] == HASH
    && AllDigits(s[TXID_DIGITS + 1..])
    && Decimal(s[TXID_DIGITS + 1..]) <= U32_MAX
  }

  lemma {:induction false} HexHasNoHash(s: Bytes)
    requires AllHex(s)
    ensures HASH !in s
  {
    assert HexValue(HASH).None?;
  }

  /** A string parses exactly when it is in the language, and then to the id and index it
      spells out. */
  lemma {:induction false} ParseAccepts(s: Bytes)
    ensures ParsedUtxoRef(s).Some? <==> IsUtxoRefText(s)
    ensures ParsedUtxoRef(s).Some? ==>
      && Some(ParsedUtxoRef(s).value.txid) == HexDecode(s[..TXID_DIGITS])
      && |ParsedUtxoRef(s).value.txid| == 32
      && ParsedUtxoRef(s).value.index == Decimal(s[TXID_DIGITS + 1..])
  {
    SplitAtSound(s);
    if ParsedUtxoRef(s).Some? {
      HexDecodeAccepts(s[..TXID_DIGITS]);
    }
    if IsUtxoRefText(s) {
      HexHasNoHash(s[..TXID_DIGITS]);
      SplitFirst(s[..TXID_DIGITS], s[TXID_DIGITS + 1..]);
      assert s == s[..TXID_DIGITS] + [HASH] + s[TXID_DIGITS + 1..];
      HexDecodeAccepts(s[..TXID_DIGITS]);
    }
  }

  /** Printing what was parsed gives the text back exactly when it was written canonically:
      lower-case digits and no leading zero. */
  predicate Canonical(s: Bytes)
    requires IsUtxoRefText(s)
  {
    && NoCapital(s[..TXID_DIGITS])
    && (s[TXID_DIGITS + 1] == 0x30 ==> |s| == TXID_DIGITS + 2)
  }

  predicate NoCapital(s: Bytes) {
    forall i | 0 <= i < |s| :: !(0x41 <= s[i] <= 0x46)
  }

  lemma {:induction false} NoCapitalTail(s: Bytes)
    requires |s| >= 2
    ensures NoCapital(s) <==> NoCapital(s[..2]) && NoCapital(s[2..])
  {
    assert forall i | 2 <= i < |s| :: s[i] == s[2..][i - 2];
  }

  lemma {:induction false} HexPairPrint(hi: byte, lo: byte)
    requires HexValue(hi).Some? && HexValue(lo).Some?
    ensures HexDigit(HexValue(hi).value) == hi <==> !(0x41 <= hi <= 0x46)
    ensures HexDigit(HexValue(lo).value) == lo <==> !(0x41 <= lo <= 0x46)
    ensures HexValue(hi).value < 16 && HexValue(lo).value < 16
  {
  }

  /** The first byte and the rest are decoded and printed apart. */
  lemma {:induction false} HexPrintTail(s: Bytes)
    requires s != [] && HexDecode(s).Some?
    ensures |s| >= 2 && HexValue(s[0]).Some? && HexValue(s[1]).Some? && HexDecode(s[2..]).Some?
    ensures HexEncode(HexDecode(s).value)
      == [HexDigit(HexValue(s[0]).value), HexDigit(HexValue(s[1]).value)] + HexEncode(HexDecode(s[2..]).value)
  {
    var v := HexDecode(s).value;
    assert v[1..] == HexDecode(s[2..]).value;
  }

  lemma {:induction false} PairThenRest(s: Bytes, p: Bytes, rest: Bytes)
    requires |s| >= 2 && |p| == 2
    ensures p + rest == s <==> p == s[..2] && rest == s[2..]
  {
    assert s == s[..2] + s[2..];
    if p + rest == s {
      assert (p + rest)[..2] == p && (p + rest)[2..] == rest;
    }
  }

  lemma {:induction false} HexPrintDecode(s: Bytes)
    requires HexDecode(s).Some?
    ensures HexEncode(HexDecode(s).value) == s <==> NoCapital(s)
  {
    if s != [] {
      HexPrintTail(s);
      HexPrintDecode(s[2..]);
      HexPairPrint(s[0], s[1]);
      NoCapitalTail(s);
      PairThenRest(s, [HexDigit(HexValue(s[0]).value), HexDigit(HexValue(s[1]).value)],
                   HexEncode(HexDecode(s[2..]).value));
      assert s[..2] == [s[0], s[1]];
      hide HexEncode, HexDecode, HexDigit, HexValue;
    }
  }

  lemma {:induction false} DecimalPrint(s: Bytes)
    requires s != [] && AllDigits(s)
    ensures PrintDecimal(Decimal(s)) == s <==> (s[0] == 0x30 ==> |s| == 1)
    ensures s[0] != 0x30 ==> Decimal(s) > 0
  {
    var front, d := s[..|s| - 1], s[|s| - 1] - 0x30;
    var n := Decimal(s);
    assert s == front + [0x30 + d];
    if front == [] {
      assert Decimal(front) == 0;
    } else {
      DecimalPrint(front);
      assert n / 10 == Decimal(front) && n % 10 == d;
      PrintNoLeadingZero(n);
    }
  }

  /** Printing has no leading zero. */
  lemma {:induction false} PrintNoLeadingZero(n: nat)
    ensures PrintDecimal(n)[0] == 0x30 ==> n == 0
    ensures n < 10 ==> |PrintDecimal(n)| == 1
    ensures n >= 10 ==> PrintDecimal(n)[..|PrintDecimal(n)| - 1] == PrintDecimal(n / 10)
  {
    if n >= 10 { PrintNoLeadingZero(n / 10); }
  }

  lemma {:induction false} PrintParse(s: Bytes)
    requires IsUtxoRefText(s)
    ensures ParsedUtxoRef(s).Some?
    ensures PrintUtxoRef(ParsedUtxoRef(s).value) == s <==> Canonical(s)
  {
    ParseAccepts(s);
    var hex, digits := s[..TXID_DIGITS], s[TXID_DIGITS + 1..];
    var r := ParsedUtxoRef(s).value;
    HexPrintDecode(hex);
    DecimalPrint(digits);
    HexRoundTrip(r.txid);
    assert s == hex + [HASH] + digits;
    var t := PrintUtxoRef(r);
    assert t[..TXID_DIGITS] == HexEncode(r.txid) && t[TXID_DIGITS + 1..] == PrintDecimal(r.index);
  }

  /** No string is both a reference and a policy, so the order in which the two are tried does
      not matter. */
  lemma {:induction false} RefOrPolicy(s: Bytes)
    ensures ParsedUtxoRef(s).None? || ParsePolicy(s).None?
  {
    ParseAccepts(s);
  }

  // ----- the texts, character by character

  /** The digits 0 to 9 and a to f, and A to F. */
  const LOWER: seq<byte> :=
    [0x30, 0x31, 0x32, 0x33, 0x34, 0x35, 0x36, 0x37, 0x38, 0x39, 0x61, 0x62, 0x63, 0x64, 0x65, 0x66]

  const UPPER: seq<byte> :=
    [0x30, 0x31, 0x32, 0x33, 0x34, 0x35, 0x36, 0x37, 0x38, 0x39, 0x41, 0x42, 0x43, 0x44, 0x45, 0x46]

  predicate IsDigitOf(c: byte, v: nat) {
    v < 16 && (c == LOWER[v] || c == UPPER[v])
  }

  lemma {:induction false} DigitRead(c: byte, v: byte)
    ensures HexValue(c) == Some(v) <==> IsDigitOf(c, v)
  {}

  /** Two digits for each byte, the high one first. */
  ghost predicate SpellsHex(s: Bytes, b: Bytes) {
    |s| == 2 * |b| && forall i | 0 <= i < |b| :: IsDigitOf(s[2 * i], b[i] / 16) && IsDigitOf(s[2 * i + 1], b[i] % 16)
  }

  lemma {:induction false} HexRead(s: Bytes, b: Bytes)
    ensures HexDecode(s) == Some(b) <==> SpellsHex(s, b)
  {
    if |s| >= 2 {
      if b != [] {
        HexRead(s[2..], b[1..]);
        DigitRead(s[0], b[0] / 16);
        DigitRead(s[1], b[0] % 16);
        hide IsDigitOf, HexValue;
        SpellsFirst(s, b);
        HexStep(s, b);
      }
    }
  }

  lemma {:induction false} SpellsFirst(s: Bytes, b: Bytes)
    requires |s| >= 2 && b != []
    ensures SpellsHex(s, b) <==>
      IsDigitOf(s[0], b[0] / 16) && IsDigitOf(s[1], b[0] % 16) && SpellsHex(s[2..], b[1..])
  {
    hide IsDigitOf;
    var t, c := s[2..], b[1..];
    assert forall i | 0 <= i < |c| :: c[i] == b[i + 1];
    assert forall i | 0 <= i < |t| :: t[i] == s[i + 2];
    if SpellsHex(t, c) && IsDigitOf(s[0], b[0] / 16) && IsDigitOf(s[1], b[0] % 16) {
      forall i | 0 <= i < |b| ensures IsDigitOf(s[2 * i], b[i] / 16) && IsDigitOf(s[2 * i + 1], b[i] % 16) {
        if i > 0 { assert IsDigitOf(t[2 * (i - 1)], c[i - 1] / 16) && IsDigitOf(t[2 * (i - 1) + 1], c[i - 1] % 16); }
      }
    }
    if SpellsHex(s, b) {
      forall i | 0 <= i < |c| ensures IsDigitOf(t[2 * i], c[i] / 16) && IsDigitOf(t[2 * i + 1], c[i] % 16) {
        assert IsDigitOf(s[2 * (i + 1)], b[i + 1] / 16) && IsDigitOf(s[2 * (i + 1) + 1], b[i + 1] % 16);
      }
    }
  }

  lemma {:induction false} HexStep(s: Bytes, b: Bytes)
    requires |s| >= 2 && b != []
    ensures HexDecode(s) == Some(b) <==>
      HexValue(s[0]) == Some(b[0] / 16) && HexValue(s[1]) == Some(b[0] % 16) && HexDecode(s[2..]) == Some(b[1..])
  {
    assert b == [b[0]] + b[1..];
    if HexValue(s[0]).Some? && HexValue(s[1]).Some? { Nibbles(HexValue(s[0]).value, HexValue(s[1]).value, b[0]); }
  }

  lemma {:induction false} Nibbles(hi: byte, lo: byte, b: byte)
    requires hi < 16 && lo < 16
    ensures 16 * hi + lo == b <==> hi == b / 16 && lo == b % 16
  {}

  /** A policy is 56 digits that spell 28 bytes. */
  lemma {:induction false} PolicySpelt(s: Bytes, p: Bytes)
    ensures ParsePolicy(s) == Some(p) <==> |p| == 28 && SpellsHex(s, p)
  {
    HexRead(s, p);
  }

  /** A reference is 64 digits that spell 32 bytes, a `#`, and at least one decimal digit, and what
      these come to fits 32 bits. */
  lemma {:induction false} ReferenceSpelt(s: Bytes, r: UtxoRef)
    ensures ParsedUtxoRef(s) == Some(r) <==>
      && |s| > 65 && |r.txid| == 32
      && SpellsHex(s[..64], r.txid)
      && s[64] == 0x23
      && (forall i | 65 <= i < |s| :: 0x30 <= s[i] <= 0x39)
      && AllDigits(s[65..]) && Decimal(s[65..]) == r.index
  {
    ParseAccepts(s);
    if |s| > 65 {
      HexRead(s[..64], r.txid);
      HexDecodeAccepts(s[..64]);
      assert AllDigits(s[65..]) <==> forall i | 65 <= i < |s| :: 0x30 <= s[i] <= 0x39 by {
        assert forall i | 65 <= i < |s| :: s[i] == s[65..][i - 65];
      }
    }
  }

  /** What decimal digits come to: the last one, and ten times what is before it. */
  lemma {:induction false} DecimalDigits(s: Bytes, d: byte)
    requires AllDigits(s + [d])
    ensures AllDigits(s) && Decimal(s + [d]) == 10 * Decimal(s) + (d - 0x30) && Decimal([]) == 0
  {
    assert (s + [d])[..|s|] == s;
    assert forall i | 0 <= i < |s| :: s[i] == (s + [d])[i];
  }
}
