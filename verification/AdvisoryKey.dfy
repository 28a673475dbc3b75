/**
 The advisory-lock key of a schema name: 64-bit FNV-1a over its bytes, reinterpreted as a signed integer.
 Names are byte strings, as `schema.as_bytes()` yields them.
 */
module AdvisoryKey {

  const TWO_TO_THE_63: int := 0x8000_0000_0000_0000
  const TWO_TO_THE_64: int := 0x1_0000_0000_0000_0000

  type byte = b: int | 0 <= b < 256
  type u64 = x: int | 0 <= x < TWO_TO_THE_64
  type i64 = x: int | -TWO_TO_THE_63 <= x < TWO_TO_THE_63

  const OFFSET_BASIS: u64 := 0xcbf2_9ce4_8422_2325
  const PRIME: u64 := 0x100_0000_01b3
  /** PRIME * PRIME_INVERSE == 1 modulo 2^64. */
  const PRIME_INVERSE: u64 := 0xce96_5057_aff6_957b

  function Pow2(n: nat): (p: nat) {
    if n == 0 then 1 else 2 * Pow2(n - 1)
  }

  function Bit(p: nat, q: nat): (r: nat)
    ensures r < 2
  {
    (p + q) % 2
  }

  /** Exclusive or of the n lowest bits. */
  function XorBits(a: nat, b: nat, n: nat): (x: nat)
    ensures x < Pow2(n)
  {
    if n == 0 then 0 else 2 * XorBits(a / 2, b / 2, n - 1) + Bit(a % 2, b % 2)
  }

  /** `hash ^ byte as u64`: the upper 56 bits meet zeros. */
  function Xor(hash: u64, b: byte): (x: u64) {
    assert Pow2(8) == 256;
    hash / 256 * 256 + XorBits(hash % 256, b, 8)
  }

  /** `hash.wrapping_mul(PRIME)` */
  function WrappingMul(hash: u64): u64 {
    hash * PRIME % TWO_TO_THE_64
  }

  function Mix(hash: u64, b: byte): u64 {
    WrappingMul(Xor(hash, b))
  }

  function Hash(name: seq<byte>): u64 {
    if name == [] then OFFSET_BASIS else Mix(Hash(name[..|name| - 1]), name[|name| - 1])
  }

  /** `hash as i64` */
  function AsSigned(hash: u64): i64 {
    if hash < TWO_TO_THE_63 then hash else hash - TWO_TO_THE_64
  }

  function Key(name: seq<byte>): i64 {
    AsSigned(Hash(name))
  }

  method ComputeKey(name: seq<byte>) returns (key: i64)
    ensures key == Key(name)
  {
    var hash: u64 := OFFSET_BASIS;
    for i := 0 to |name|
      invariant hash == Hash(name[..i])
    {
      assert name[..i + 1][..i] == name[..i];
      hash := Xor(hash, name[i]);
      hash := WrappingMul(hash);
    }
    assert name[..|name|] == name;
    return AsSigned(hash);
  }

  // --- FNV-1a ---

  /** Bit number `k`. */
  function BitAt(a: nat, k: nat): nat {
    if k == 0 then a % 2 else BitAt(a / 2, k - 1)
  }

  /** The exclusive or has a bit exactly where one of the two has it and the other does not. */
  lemma {:induction false} XorBitsAt(a: nat, b: nat, n: nat, k: nat)
    requires k < n
    ensures BitAt(XorBits(a, b, n), k) == if BitAt(a, k) != BitAt(b, k) then 1 else 0
  {
    Halve(XorBits(a / 2, b / 2, n - 1), Bit(a % 2, b % 2));
    if k > 0 {
      XorBitsAt(a / 2, b / 2, n - 1, k - 1);
    } else {
      BitIs(a, b);
    }
  }

  lemma BitIs(a: nat, b: nat)
    ensures Bit(a % 2, b % 2) == if a % 2 != b % 2 then 1 else 0
  {
  }

  /** The key starts from the published basis; each byte is first combined and then multiplied in. */
  lemma HashIs(name: seq<byte>, b: byte)
    ensures Hash([]) == 0xcbf2_9ce4_8422_2325
    ensures var x := Xor(Hash(name), b);
      && x / 256 == Hash(name) / 256 && x % 256 == XorBits(Hash(name) % 256, b, 8)
      && Hash(name + [b]) == x * 0x100_0000_01b3 % 0x1_0000_0000_0000_0000
    ensures Key(name) == Hash(name) || Key(name) == Hash(name) - 0x1_0000_0000_0000_0000
    ensures -0x8000_0000_0000_0000 <= Key(name) < 0x8000_0000_0000_0000
  {
    hide XorBits;
    assert Pow2(8) == 256;
    HashPush(name, b);
  }

  lemma XorUnfold(a: nat, b: nat, n: nat)
    requires n > 0
    ensures XorBits(a, b, n) == 2 * XorBits(a / 2, b / 2, n - 1) + Bit(a % 2, b % 2)
  {
  }

  lemma KnownXor()
    ensures XorBits(0x25, 97, 8) == 0x44
  {
    hide XorBits;
    XorUnfold(0x25, 97, 8);
    XorUnfold(0x12, 48, 7);
    XorUnfold(0x9, 24, 6);
    XorUnfold(0x4, 12, 5);
    XorUnfold(0x2, 6, 4);
    XorUnfold(0x1, 3, 3);
    XorUnfold(0x0, 1, 2);
    XorUnfold(0x0, 0, 1);
    NoBits();
  }

  /** The published value for the one-letter name "a". */
  lemma KnownHash()
    ensures Hash([97]) == 0xaf63_dc4c_8601_ec8c
  {
    hide XorBits, Xor;
    HashIs([], 97);
    KnownXor();
    var x := Xor(Hash([]), 97);
    assert x == 0xcbf2_9ce4_8422_2344;
    assert [] + [97] == [97];
  }

  lemma NoBits()
    ensures XorBits(0, 0, 0) == 0
  {
  }

  lemma ModOfMultiple(h: u64, t: int)
    ensures (h + t * TWO_TO_THE_64) % TWO_TO_THE_64 == h
  {
  }

  /** Multiplying a wrapped product by the inverse of the prime gives the factor back, up to multiples of 2^64. */
  lemma Recombine(hash: int, k: int, r: int)
    requires hash * PRIME == k * TWO_TO_THE_64 + r
    ensures r * PRIME_INVERSE == hash + (887285111055 * hash - k * PRIME_INVERSE) * TWO_TO_THE_64
  {
  }

  lemma WrappingMulInverts(hash: u64)
    ensures WrappingMul(hash) * PRIME_INVERSE % TWO_TO_THE_64 == hash
  {
    var k := hash * PRIME / TWO_TO_THE_64;
    Recombine(hash, k, WrappingMul(hash));
    ModOfMultiple(hash, 887285111055 * hash - k * PRIME_INVERSE);
  }

  lemma BitInverts(p: nat, q: nat)
    requires p < 2 && q < 2
    ensures Bit(Bit(p, q), q) == p && Bit(p, Bit(p, q)) == q
  {
  }

  lemma Halve(y: nat, bit: nat)
    requires bit < 2
    ensures (2 * y + bit) / 2 == y && (2 * y + bit) % 2 == bit
  {
  }

  lemma XorBitsUnfolds(a: nat, b: nat, p: nat, q: nat, n: nat)
    requires p < 2 && q < 2
    ensures XorBits(2 * a + p, 2 * b + q, n + 1) == 2 * XorBits(a, b, n) + Bit(p, q)
  {
    Halve(a, p);
    Halve(b, q);
  }

  lemma HalfBelow(a: nat, n: nat)
    requires n > 0 && a < Pow2(n)
    ensures a / 2 < Pow2(n - 1) && a % 2 < 2 && a == 2 * (a / 2) + a % 2
  {
  }

  /** One more bit, once the upper bits are known to invert. */
  lemma XorBitsInvertsStep(a: nat, b: nat, p: nat, q: nat, n: nat)
    requires p < 2 && q < 2
    requires XorBits(XorBits(a, b, n), b, n) == a && XorBits(a, XorBits(a, b, n), n) == b
    ensures var x := XorBits(2 * a + p, 2 * b + q, n + 1);
      && XorBits(x, 2 * b + q, n + 1) == 2 * a + p
      && XorBits(2 * a + p, x, n + 1) == 2 * b + q
  {
    hide XorBits, Bit;
    var x := XorBits(a, b, n);
    BitInverts(p, q);
    XorBitsUnfolds(a, b, p, q, n);
    XorBitsUnfolds(x, b, Bit(p, q), q, n);
    XorBitsUnfolds(a, x, p, Bit(p, q), n);
  }

  /** Exclusive or undoes itself, in either argument. */
  lemma {:induction false} XorBitsInverts(a: nat, b: nat, n: nat)
    requires a < Pow2(n) && b < Pow2(n)
    ensures XorBits(XorBits(a, b, n), b, n) == a
    ensures XorBits(a, XorBits(a, b, n), n) == b
  {
    if n == 0 {
    } else {
      hide XorBits, Pow2;
      HalfBelow(a, n);
      HalfBelow(b, n);
      XorBitsInverts(a / 2, b / 2, n - 1);
      XorBitsInvertsStep(a / 2, b / 2, a % 2, b % 2, n - 1);
    }
  }

  /** Each step is injective in the state for a fixed byte, and in the byte for a fixed state. */
  lemma MixIsInjective(h1: u64, b1: byte, h2: u64, b2: byte)
    requires Mix(h1, b1) == Mix(h2, b2)
    ensures h1 == h2 <==> b1 == b2
  {
    WrappingMulInverts(Xor(h1, b1));
    WrappingMulInverts(Xor(h2, b2));
    var x1, x2 := Xor(h1, b1), Xor(h2, b2);
    assert x1 == x2;
    assert Pow2(8) == 256;
    assert x1 / 256 == h1 / 256 && x1 % 256 == XorBits(h1 % 256, b1, 8);
    assert x2 / 256 == h2 / 256 && x2 % 256 == XorBits(h2 % 256, b2, 8);
    XorBitsInverts(h1 % 256, b1, 8);
    XorBitsInverts(h2 % 256, b2, 8);
  }

  lemma HashPush(name: seq<byte>, b: byte)
    ensures Hash(name + [b]) == Mix(Hash(name), b)
  {
    assert (name + [b])[..|name|] == name;
  }

  lemma Regroup(a: seq<byte>, front: seq<byte>, last: byte)
    ensures a + (front + [last]) == a + front + [last]
  {
  }

  lemma MixSameByte(h1: u64, h2: u64, b: byte)
    ensures Mix(h1, b) == Mix(h2, b) <==> h1 == h2
  {
    if Mix(h1, b) == Mix(h2, b) {
      MixIsInjective(h1, b, h2, b);
    }
  }

  /** Appending the same bytes keeps equal hashes equal and different hashes different. */
  lemma {:induction false} SuffixKeepsDifference(a: seq<byte>, b: seq<byte>, suffix: seq<byte>)
    ensures Hash(a + suffix) == Hash(b + suffix) <==> Hash(a) == Hash(b)
  {
    hide *;
    if suffix == [] {
      assert a + suffix == a && b + suffix == b;
    } else {
      var front, last := suffix[..|suffix| - 1], suffix[|suffix| - 1];
      assert suffix == front + [last];
      SuffixKeepsDifference(a, b, front);
      Regroup(a, front, last);
      Regroup(b, front, last);
      HashPush(a + front, last);
      HashPush(b + front, last);
      MixSameByte(Hash(a + front), Hash(b + front), last);
    }
  }

  /** Two names of equal length that differ in exactly one byte never share a key. */
  lemma OneByteApartNeverCollide(a: seq<byte>, b: seq<byte>, k: nat)
    requires |a| == |b| && k < |a|
    requires a[k] != b[k] && a[..k] == b[..k] && a[k + 1..] == b[k + 1..]
    ensures Key(a) != Key(b)
  {
    hide Mix;
    var pa, pb, suffix := a[..k + 1], b[..k + 1], a[k + 1..];
    assert a == pa + suffix && b == pb + suffix;
    assert pa[..k] == a[..k] && pb[..k] == b[..k];
    if Hash(pa) == Hash(pb) {
      MixIsInjective(Hash(a[..k]), a[k], Hash(b[..k]), b[k]);
    }
    SuffixKeepsDifference(pa, pb, suffix);
  }
}
