/** FNV-1a over 64 bits (crates/tx3-lift/src/fingerprint.rs; section 2 of
    draft-eastlake-fnv), as arithmetic modulo 2^64. */
module Fnv {
  import opened Base

  const OFFSET_BASIS: u64 := 0xcbf29ce484222325
  const PRIME := 0x100000001b3

  /** Bitwise exclusive or. */
  function Xor(a: nat, b: nat): nat
    decreases a + b
  {
    if a == 0 && b == 0 then 0 else 2 * Xor(a / 2, b / 2) + (a + b) % 2
  }

  function Pow2(k: nat): nat {
    if k == 0 then 1 else 2 * Pow2(k - 1)
  }

  lemma {:induction false} XorBound(a: nat, b: nat, k: nat)
    requires a < Pow2(k) && b < Pow2(k)
    ensures Xor(a, b) < Pow2(k)
  {
    if k > 0 { XorBound(a / 2, b / 2, k - 1); }
  }

  lemma {:induction false} XorUnfold(a: nat, b: nat)
    ensures Xor(a, b) == 2 * Xor(a / 2, b / 2) + (a + b) % 2
  {
    if a == 0 && b == 0 {
      assert Xor(0, 0) == 0;
    }
  }

  lemma {:induction false} DoubledPlusBit(x: nat, h: nat, bit: nat)
    requires x == 2 * h + bit && bit < 2
    ensures x / 2 == h && x % 2 == bit
  {
  }

  lemma {:induction false} SumParity(a: nat, b: nat)
    ensures (a + b) % 2 == (a % 2 + b % 2) % 2
  {
  }

  lemma {:induction false} XorUpper(a: nat, b: nat)
    ensures Xor(a, b) / 2 == Xor(a / 2, b / 2)
  {
    XorUnfold(a, b);
    hide Xor;
    DoubledPlusBit(Xor(a, b), Xor(a / 2, b / 2), (a + b) % 2);
  }

  lemma {:induction false} XorLowest(a: nat, b: nat)
    ensures Xor(a, b) % 2 == (a % 2 + b % 2) % 2
  {
    XorUnfold(a, b);
    hide Xor;
    DoubledPlusBit(Xor(a, b), Xor(a / 2, b / 2), (a + b) % 2);
    SumParity(a, b);
  }

  lemma {:induction false} SameHalves(a: nat, b: nat, x: nat, y: nat)
    requires y / 2 == a / 2 && x % 2 == (a % 2 + b % 2) % 2 && y % 2 == (x % 2 + b % 2) % 2
    ensures y == a
  {
  }

  /** Exclusive or with the same word twice is the identity. */
  lemma {:induction false} XorInvolutive(a: nat, b: nat)
    ensures Xor(Xor(a, b), b) == a
    decreases a + b
  {
    if a + b > 0 {
      XorInvolutive(a / 2, b / 2);
      XorUpper(a, b);
      XorLowest(a, b);
      var x := Xor(a, b);
      XorUpper(x, b);
      XorLowest(x, b);
      hide Xor;
      SameHalves(a, b, x, Xor(x, b));
    } else {
      assert Xor(0, 0) == 0;
    }
  }

  lemma {:induction false} Pow2Of64()
    ensures Pow2(64) == TWO_TO_THE_64
  {
    assert Pow2(8) == 256;
    Pow2Sum(8, 8);
    Pow2Sum(16, 16);
    Pow2Sum(32, 32);
  }

  lemma {:induction false} DoubledProduct(x: nat, y: nat)
    ensures 2 * (x * y) == (2 * x) * y
  {
  }

  lemma {:induction false} Pow2Sum(a: nat, b: nat)
    ensures Pow2(a + b) == Pow2(a) * Pow2(b)
  {
    if a > 0 {
      Pow2Sum(a - 1, b);
      assert Pow2(a + b) == 2 * Pow2(a - 1 + b);
      DoubledProduct(Pow2(a - 1), Pow2(b));
    }
  }

  lemma {:induction false} XorWord(h: u64, b: byte)
    ensures Xor(h, b) < TWO_TO_THE_64
  {
    Pow2Of64();
    XorBound(h, b, 64);
  }

  /** `h ^= b; h = h.wrapping_mul(PRIME)` */
  function Step(h: u64, b: byte): u64 {
    Xor(h, b) * PRIME % TWO_TO_THE_64
  }

  function Hash(h: u64, bytes: Bytes): u64 {
    if bytes == [] then h else Step(Hash(h, bytes[..|bytes| - 1]), bytes[|bytes| - 1])
  }

  method Fnv1a64(bytes: Bytes) returns (h: u64)
    ensures h == Hash(OFFSET_BASIS, bytes)
  {
    h := OFFSET_BASIS;
    for i := 0 to |bytes|
      invariant h == Hash(OFFSET_BASIS, bytes[..i])
    {
      assert bytes[..i + 1][..i] == bytes[..i];
      XorWord(h, bytes[i]);
      var x: u64 := Xor(h, bytes[i]);
      h := x * PRIME % TWO_TO_THE_64;
    }
    assert bytes[..|bytes|] == bytes;
  }

  // ----- a step can be undone

  /** The inverse of the prime modulo 2^64. */
  const INVERSE := 0xce965057aff6957b

  lemma {:induction false} TimesInverse(x: u64)
    ensures x * PRIME % TWO_TO_THE_64 * INVERSE % TWO_TO_THE_64 == x
  {
    assert PRIME * INVERSE == 1 + 887285111055 * TWO_TO_THE_64;
    ModularInverse(x, PRIME, INVERSE, 887285111055, TWO_TO_THE_64);
  }

  /** The inverse of `p` modulo `n` undoes the product with `p`. */
  lemma {:induction false} ModularInverse(x: nat, p: nat, inverse: nat, c: nat, n: nat)
    requires x < n && p * inverse == 1 + c * n
    ensures x * p % n * inverse % n == x
  {
    var q, y := x * p / n, x * p % n;
    assert x * p == q * n + y;
    InverseProduct(x, p, inverse, c, n, q, y);
    AddMultiple(x, n, x * c - q * inverse, y * inverse);
  }

  lemma {:induction false} InverseProduct(x: int, p: int, inverse: int, c: int, n: int, q: int, y: int)
    requires p * inverse == 1 + c * n && x * p == q * n + y
    ensures y * inverse == x + n * (x * c - q * inverse)
  {
    calc {
      y * inverse;
      (x * p - q * n) * inverse;
      x * (p * inverse) - q * n * inverse;
      x * (1 + c * n) - q * n * inverse;
      x + n * (x * c - q * inverse);
    }
  }

  lemma {:induction false} AddMultiple(x: nat, n: int, k: int, z: int)
    requires x < n && z == x + n * k
    ensures z % n == x
  {
    assert z == n * (z / n) + z % n;
    var d := k - z / n;
    assert n * d == z % n - x;
    MultipleApart(n, d);
  }

  lemma {:induction false} MultipleApart(n: int, d: int)
    requires n >= 0
    ensures d >= 1 ==> n * d >= n
    ensures d <= -1 ==> n * d + n <= 0
  {
  }

  /** The state before a step, from the state after it and the byte it consumed. */
  function Unstep(h: u64, b: byte): nat {
    Xor(h * INVERSE % TWO_TO_THE_64, b)
  }

  lemma {:induction false} UnstepStep(h: u64, b: byte)
    ensures Unstep(Step(h, b), b) == h
  {
    XorWord(h, b);
    TimesInverse(Xor(h, b));
    XorInvolutive(h, b);
  }

  /** Hashing a suffix after a prefix is hashing the concatenation. */
  lemma {:induction false} HashAppend(h: u64, s: Bytes, t: Bytes)
    ensures Hash(h, s + t) == Hash(Hash(h, s), t)
  {
    if t == [] {
      assert s + t == s;
    } else {
      var front := t[..|t| - 1];
      HashAppend(h, s, front);
      assert (s + t)[..|s + t| - 1] == s + front;
    }
  }

  /** A common suffix never merges two different states. */
  lemma {:induction false} SuffixInjective(g: u64, h: u64, suffix: Bytes)
    requires Hash(g, suffix) == Hash(h, suffix)
    ensures g == h
  {
    if suffix != [] {
      var front, last := suffix[..|suffix| - 1], suffix[|suffix| - 1];
      UnstepStep(Hash(g, front), last);
      UnstepStep(Hash(h, front), last);
      SuffixInjective(g, h, front);
    }
  }

  /** One state and two different bytes lead to two different states. */
  lemma {:induction false} ByteInjective(h: u64, b: byte, c: byte)
    requires Step(h, b) == Step(h, c)
    ensures b == c
  {
    XorWord(h, b);
    XorWord(h, c);
    TimesInverse(Xor(h, b));
    TimesInverse(Xor(h, c));
    XorCommutative(h, b);
    XorCommutative(h, c);
    XorInvolutive(b, h);
    XorInvolutive(c, h);
  }

  lemma {:induction false} XorCommutative(a: nat, b: nat)
    ensures Xor(a, b) == Xor(b, a)
    decreases a + b
  {
    if a + b > 0 { XorCommutative(a / 2, b / 2); }
  }

  /** Two byte strings of equal length that differ in exactly one position hash differently. */
  lemma {:induction false} OneByteChangeDetected(s: Bytes, t: Bytes, i: nat)
    requires |s| == |t| && i < |s| && s[i] != t[i]
    requires forall j | 0 <= j < |s| && j != i :: s[j] == t[j]
    ensures Hash(OFFSET_BASIS, s) != Hash(OFFSET_BASIS, t)
  {
    var pre, post := s[..i], s[i + 1..];
    assert pre == t[..i] && post == t[i + 1..];
    assert s == pre + [s[i]] + post && t == pre + [t[i]] + post;
    HashAppend(OFFSET_BASIS, pre + [s[i]], post);
    HashAppend(OFFSET_BASIS, pre + [t[i]], post);
    var h := Hash(OFFSET_BASIS, pre);
    assert (pre + [s[i]])[..i] == pre && (pre + [t[i]])[..i] == pre;
    if Hash(OFFSET_BASIS, s) == Hash(OFFSET_BASIS, t) {
      SuffixInjective(Step(h, s[i]), Step(h, t[i]), post);
      ByteInjective(h, s[i], t[i]);
    }
  }

  // ----- published values

  lemma {:induction false} XorZero(a: nat)
    ensures Xor(a, 0) == a
  {
    if a > 0 { XorZero(a / 2); }
  }

  /** One more binary digit. */
  lemma {:induction false} XorDigit(a: nat, b: nat, half: nat, x: nat)
    requires Xor(a / 2, b / 2) == half && x == 2 * half + (a + b) % 2
    ensures Xor(a, b) == x
  {
    XorUnfold(a, b);
  }

  lemma {:induction false} FirstXor()
    ensures Xor(OFFSET_BASIS, 0x61) == 0xcbf29ce484222344
  {
    hide Xor;
    XorZero(0x197e539c9084446);
    XorDigit(0x32fca739210888c, 0x1, 0x197e539c9084446, 0x32fca739210888d);
    XorDigit(0x65f94e724211119, 0x3, 0x32fca739210888d, 0x65f94e72421111a);
    XorDigit(0xcbf29ce48422232, 0x6, 0x65f94e72421111a, 0xcbf29ce48422234);
    XorDigit(0x197e539c90844464, 0xc, 0xcbf29ce48422234, 0x197e539c90844468);
    XorDigit(0x32fca739210888c9, 0x18, 0x197e539c90844468, 0x32fca739210888d1);
    XorDigit(0x65f94e7242111192, 0x30, 0x32fca739210888d1, 0x65f94e72421111a2);
    XorDigit(0xcbf29ce484222325, 0x61, 0x65f94e72421111a2, 0xcbf29ce484222344);
  }

  lemma {:induction false} OneByteHash(b: byte)
    ensures Hash(OFFSET_BASIS, []) == OFFSET_BASIS
    ensures Hash(OFFSET_BASIS, [b]) == Step(OFFSET_BASIS, b)
  {
    assert [b][..0] == [];
  }

  /** The published hashes of the empty string and of "a". */
  lemma {:induction false} PublishedHashes()
    ensures Hash(OFFSET_BASIS, []) == 0xcbf29ce484222325
    ensures Hash(OFFSET_BASIS, [0x61]) == 0xaf63dc4c8601ec8c
  {
    hide Xor, Hash, Step;
    OneByteHash(0x61);
    FirstXor();
    FirstProduct();
  }

  lemma {:induction false} FirstProduct()
    requires Xor(OFFSET_BASIS, 0x61) == 0xcbf29ce484222344
    ensures Step(OFFSET_BASIS, 0x61) == 0xaf63dc4c8601ec8c
  {
    hide Xor;
    assert 0xcbf29ce484222344 * PRIME == 0xcbf29ce5de * TWO_TO_THE_64 + 0xaf63dc4c8601ec8c;
  }
}
