/** Vocabulary shared by every module: options and results, bytes, machine
    integers and the saturating or truncating conversions between them. */
module Base {

  datatype Option<+T> = None | Some(value: T)

  datatype Error = PallasDecode | UnknownProfile | InvalidAddress | BadTxHash | TxNotInBlock | Storage | Rejected

  datatype Result<+T> = Ok(value: T) | Err(error: Error)

  type byte = b: int | 0 <= b < 256

  type Bytes = seq<byte>

  const U16_MAX := 0xFFFF
  const U32_MAX := 0xFFFF_FFFF
  const TWO_TO_THE_16 := 0x1_0000
  const TWO_TO_THE_32 := 0x1_0000_0000
  const TWO_TO_THE_63 := 0x8000_0000_0000_0000
  const TWO_TO_THE_64 := 0x1_0000_0000_0000_0000

  type u16 = n: int | 0 <= n <= U16_MAX
  type u32 = n: int | 0 <= n <= U32_MAX
  type u64 = n: int | 0 <= n < TWO_TO_THE_64
  type i64 = n: int | -TWO_TO_THE_63 <= n < TWO_TO_THE_63

  /** `u16::try_from(n).unwrap_or(u16::MAX)` */
  function Saturate16(n: nat): u16 {
    if n <= U16_MAX then n else U16_MAX
  }

  /** `u32::try_from(n).unwrap_or(u32::MAX)` */
  function Saturate32(n: nat): u32 {
    if n <= U32_MAX then n else U32_MAX
  }

  /** `n as u16` */
  function Truncate16(n: nat): u16 {
    n % TWO_TO_THE_16
  }

  /** `n as u32` */
  function Truncate32(n: nat): u32 {
    n % TWO_TO_THE_32
  }

  /** `a.saturating_add(b)` */
  function SaturatingAdd16(a: u16, b: u16): u16 {
    Saturate16(a + b)
  }

  /** `a.saturating_sub(b)` */
  function SaturatingSub(a: nat, b: nat): nat {
    if a < b then 0 else a - b
  }

  /** A transaction id and an output index. */
  datatype UtxoRef = UtxoRef(txid: Bytes, index: u32)

  /** The elements of a sequence. */
  function Elems<T(==)>(s: seq<T>): set<T> {
    set x | x in s
  }
}
