/** Byte strings, big-endian integers and the lexicographic order of byte arrays. */
module Bytes {
  type byte = b: int | 0 <= b < 0x100
  type Bytes = seq<byte>
  type Bytes32 = b: Bytes | |b| == 32 witness seq(32, _ => 0)

  const U16_MAX := 0xFFFF
  const U32_MAX := 0xFFFF_FFFF
  const U64_MAX := 0xFFFF_FFFF_FFFF_FFFF

  type U16 = n: int | 0 <= n <= U16_MAX
  type U32 = n: int | 0 <= n <= U32_MAX
  type U64 = n: int | 0 <= n <= U64_MAX
  type I32 = n: int | -0x8000_0000 <= n < 0x8000_0000

  function U16Be(n: U16): (r: Bytes)
    ensures |r| == 2
  {
    [n / 0x100, n % 0x100]
  }

  function U32Be(n: U32): (r: Bytes)
    ensures |r| == 4
  {
    U16Be(n / 0x1_0000) + U16Be(n % 0x1_0000)
  }

  function U64Be(n: U64): (r: Bytes)
    ensures |r| == 8
  {
    U32Be(n / 0x1_0000_0000) + U32Be(n % 0x1_0000_0000)
  }

  /** Two's complement, as `i32::to_be_bytes`. */
  function I32Be(n: I32): (r: Bytes)
    ensures |r| == 4
  {
    U32Be(if n < 0 then n + 0x1_0000_0000 else n)
  }

  /** The bytes of an ASCII text. */
  function Ascii(s: string): (r: Bytes)
    requires forall i :: 0 <= i < |s| ==> s[i] < '\U{80}'
    ensures |r| == |s|
    ensures forall i :: 0 <= i < |s| ==> r[i] == s[i] as int
  {
    seq(|s|, i requires 0 <= i < |s| => s[i] as int)
  }

  lemma U16Injective(m: U16, n: U16)
    requires U16Be(m) == U16Be(n)
    ensures m == n
  {
    assert U16Be(m)[0] == U16Be(n)[0] && U16Be(m)[1] == U16Be(n)[1];
  }

  lemma U32Injective(m: U32, n: U32)
    requires U32Be(m) == U32Be(n)
    ensures m == n
  {
    assert U16Be(m / 0x1_0000) == U32Be(m)[..2] == U32Be(n)[..2] == U16Be(n / 0x1_0000);
    assert U16Be(m % 0x1_0000) == U32Be(m)[2..] == U32Be(n)[2..] == U16Be(n % 0x1_0000);
    U16Injective(m / 0x1_0000, n / 0x1_0000);
    U16Injective(m % 0x1_0000, n % 0x1_0000);
  }

  lemma U64Injective(m: U64, n: U64)
    requires U64Be(m) == U64Be(n)
    ensures m == n
  {
    assert U32Be(m / 0x1_0000_0000) == U64Be(m)[..4] == U64Be(n)[..4] == U32Be(n / 0x1_0000_0000);
    assert U32Be(m % 0x1_0000_0000) == U64Be(m)[4..] == U64Be(n)[4..] == U32Be(n % 0x1_0000_0000);
    U32Injective(m / 0x1_0000_0000, n / 0x1_0000_0000);
    U32Injective(m % 0x1_0000_0000, n % 0x1_0000_0000);
  }

  lemma I32Injective(m: I32, n: I32)
    requires I32Be(m) == I32Be(n)
    ensures m == n
  {
    U32Injective(if m < 0 then m + 0x1_0000_0000 else m, if n < 0 then n + 0x1_0000_0000 else n);
  }

  /** The number a byte string denotes, most significant byte first. */
  function BeValue(b: Bytes): nat {
    if b == [] then 0 else BeValue(b[..|b| - 1]) * 0x100 + b[|b| - 1]
  }

  lemma {:induction false} BeValueConcat(a: Bytes, x: byte, y: byte)
    ensures BeValue(a + [x, y]) == BeValue(a) * 0x1_0000 + x * 0x100 + y
  {
    assert (a + [x, y])[..|a| + 1] == a + [x];
    assert (a + [x])[..|a|] == a;
  }

  /** The encodings are big-endian. */
  lemma U16IsBigEndian(a: Bytes, n: U16)
    ensures BeValue(a + U16Be(n)) == BeValue(a) * 0x1_0000 + n
  {
    BeValueConcat(a, n / 0x100, n % 0x100);
  }

  lemma U32IsBigEndian(a: Bytes, n: U32)
    ensures BeValue(a + U32Be(n)) == BeValue(a) * 0x1_0000_0000 + n
  {
    U16IsBigEndian(a, n / 0x1_0000);
    U16IsBigEndian(a + U16Be(n / 0x1_0000), n % 0x1_0000);
    assert a + U32Be(n) == a + U16Be(n / 0x1_0000) + U16Be(n % 0x1_0000);
  }

  lemma U64IsBigEndian(a: Bytes, n: U64)
    ensures BeValue(a + U64Be(n)) == BeValue(a) * 0x1_0000_0000_0000_0000 + n
  {
    U32IsBigEndian(a, n / 0x1_0000_0000);
    U32IsBigEndian(a + U32Be(n / 0x1_0000_0000), n % 0x1_0000_0000);
    assert a + U64Be(n) == a + U32Be(n / 0x1_0000_0000) + U32Be(n % 0x1_0000_0000);
  }

  /** Two's complement: negative numbers lie in the upper half. */
  lemma I32IsBigEndian(n: I32)
    ensures BeValue(I32Be(n)) == if n < 0 then n + 0x1_0000_0000 else n
  {
    var u := if n < 0 then n + 0x1_0000_0000 else n;
    U32IsBigEndian([], u);
    assert [] + U32Be(u) == U32Be(u);
  }

  /** `Ord` of byte arrays: lexicographic, a proper prefix first. */
  predicate LexLe(a: Bytes, b: Bytes) {
    a == [] || (b != [] && (a[0] < b[0] || (a[0] == b[0] && LexLe(a[1..], b[1..]))))
  }

  lemma {:induction false} LexTotal(a: Bytes, b: Bytes)
    ensures LexLe(a, b) || LexLe(b, a)
  {
    if a != [] && b != [] { LexTotal(a[1..], b[1..]); }
  }

  lemma {:induction false} LexTransitive(a: Bytes, b: Bytes, c: Bytes)
    requires LexLe(a, b) && LexLe(b, c)
    ensures LexLe(a, c)
  {
    if a != [] && a[0] == b[0] == c[0] { LexTransitive(a[1..], b[1..], c[1..]); }
  }

  lemma {:induction false} LexAntisymmetric(a: Bytes, b: Bytes)
    requires LexLe(a, b) && LexLe(b, a)
    ensures a == b
  {
    if a != [] {
      LexAntisymmetric(a[1..], b[1..]);
      assert a == [a[0]] + a[1..] && b == [b[0]] + b[1..];
    }
  }

  /** The first differing byte decides. */
  lemma {:induction false} LexDecides(a: Bytes, b: Bytes, k: nat)
    requires k < |a| && k < |b| && a[..k] == b[..k] && a[k] < b[k]
    ensures LexLe(a, b) && !LexLe(b, a)
  {
    if k > 0 {
      assert a[0] == a[..k][0] == b[..k][0] == b[0];
      assert a[1..][..k - 1] == a[..k][1..] == b[..k][1..] == b[1..][..k - 1];
      LexDecides(a[1..], b[1..], k - 1);
    }
  }
}
