/** Results, byte strings and the fixed-width big-endian integers every encoding is built from. */
module Bytes {
  type Byte = x: int | 0 <= x < 256
  type Bytes = seq<Byte>

  /** What a Go function returning `(value, error)` returns. */
  datatype Result<+T, +E> = Ok(value: T) | Err(error: E) {
    predicate IsFailure() { Err? }

    function PropagateFailure<U>(): Result<U, E>
      requires Err?
    {
      Err(error)
    }

    function Extract(): T
      requires Ok?
    {
      value
    }
  }

  const TWO_32: nat := 0x1_0000_0000
  const TWO_63: nat := 0x8000_0000_0000_0000
  const TWO_64: nat := 0x1_0000_0000_0000_0000
  const TWO_128: nat := 0x1_0000_0000_0000_0000_0000_0000_0000_0000
  const TWO_256: nat := 0x1_0000_0000_0000_0000_0000_0000_0000_0000_0000_0000_0000_0000_0000_0000_0000_0000

  /** Go's int64; int is 64-bit too. */
  type Int64 = x: int | -0x8000_0000_0000_0000 <= x < 0x8000_0000_0000_0000
  type UInt64 = x: int | 0 <= x < 0x1_0000_0000_0000_0000

  /** int64 arithmetic wraps around. */
  function Wrap64(x: int): Int64 {
    FromTwos(x % TWO_64)
  }

  /** The conversion uint64(x). */
  function ToTwos(x: Int64): UInt64 {
    if x < 0 then x + TWO_64 else x
  }

  /** The conversion int64(u). */
  function FromTwos(u: UInt64): Int64 {
    if u >= TWO_63 then u - TWO_64 else u
  }

  function Pow256(k: nat): nat {
    if k == 0 then 1 else 256 * Pow256(k - 1)
  }

  /** The low k bytes of n, most significant first: the truncating conversions of
      `appendUint32(dst, uint32(len(...)))` are part of the definition. */
  function BigEndian(k: nat, n: nat): (s: Bytes)
    ensures |s| == k
  {
    if k == 0 then [] else BigEndian(k - 1, n / 256) + [n % 256]
  }

  function FromBigEndian(s: Bytes): nat {
    if s == [] then 0 else 256 * FromBigEndian(s[..|s| - 1]) + s[|s| - 1]
  }

  lemma {:induction false} FromBigEndianBound(s: Bytes)
    ensures FromBigEndian(s) < Pow256(|s|)
  {
    if s != [] {
      FromBigEndianBound(s[..|s| - 1]);
    }
  }

  lemma {:induction false} DecodeBigEndian(k: nat, n: nat)
    requires n < Pow256(k)
    ensures FromBigEndian(BigEndian(k, n)) == n
  {
    if k > 0 {
      DecodeBigEndian(k - 1, n / 256);
      assert BigEndian(k, n)[..k - 1] == BigEndian(k - 1, n / 256);
    }
  }

  lemma {:induction false} EncodeBigEndian(s: Bytes)
    ensures BigEndian(|s|, FromBigEndian(s)) == s
  {
    if s != [] {
      EncodeBigEndian(s[..|s| - 1]);
    }
  }

  /** The shifts of the code: the first byte is the most significant one. */
  lemma Shifts(s: Bytes)
    ensures |s| == 4 ==> FromBigEndian(s) == s[0] as int * 0x100_0000 + s[1] as int * 0x1_0000 + s[2] as int * 0x100 + s[3]
    ensures |s| == 8 ==>
              FromBigEndian(s) == s[0] as int * 0x100_0000_0000_0000 + s[1] as int * 0x1_0000_0000_0000 + s[2] as int * 0x100_0000_0000
                                  + s[3] as int * 0x1_0000_0000 + s[4] as int * 0x100_0000 + s[5] as int * 0x1_0000 + s[6] as int * 0x100 + s[7]
  {
    if |s| >= 4 {
      FirstBytes(s, 4);
      assert |s| == 4 ==> s[..4] == s;
    }
    if |s| == 8 {
      FirstBytes(s, 8);
      assert s[..8] == s;
    }
  }

  /** The number in the first `k` bytes, from that in the first `k - 4`. */
  lemma FirstBytes(s: Bytes, k: nat)
    requires 4 <= k <= |s|
    ensures FromBigEndian(s[..k])
         == FromBigEndian(s[..k - 4]) * TWO_32 + s[k - 4] as int * 0x100_0000 + s[k - 3] as int * 0x1_0000 + s[k - 2] as int * 0x100 + s[k - 1]
  {
    FirstByte(s, k);
    FirstByte(s, k - 1);
    FirstByte(s, k - 2);
    FirstByte(s, k - 3);
  }

  lemma FirstByte(s: Bytes, k: nat)
    requires 0 < k <= |s|
    ensures FromBigEndian(s[..k]) == 256 * FromBigEndian(s[..k - 1]) + s[k - 1]
  {
    assert s[..k][..k - 1] == s[..k - 1];
  }

  /** Two's complement: the eight bytes hold the number modulo 2^64. */
  predicate HoldsInt64(s: Bytes, x: Int64) {
    |s| == 8 && (FromBigEndian(s) - x) % 0x1_0000_0000_0000_0000 == 0
  }

  lemma PowerValues()
    ensures Pow256(4) == TWO_32 && Pow256(8) == TWO_64 && Pow256(16) == TWO_128 && Pow256(32) == TWO_256
  {
    PowerStep(0); PowerStep(4); PowerStep(8); PowerStep(12);
    PowerStep(16); PowerStep(20); PowerStep(24); PowerStep(28);
  }

  lemma PowerStep(k: nat)
    ensures Pow256(k + 4) == TWO_32 * Pow256(k)
  {
    assert Pow256(k + 2) == 256 * Pow256(k + 1);
    assert Pow256(k + 3) == 256 * Pow256(k + 2);
  }

  // ---------------------------------------------------------------------------------------
  // bytes.Compare

  /** bytes.Compare(a, b) < 0. */
  predicate LexLess(a: Bytes, b: Bytes) {
    b != [] && (a == [] || a[0] < b[0] || (a[0] == b[0] && LexLess(a[1..], b[1..])))
  }

  lemma {:induction false} LexIrreflexive(a: Bytes)
    ensures !LexLess(a, a)
  {
    if a != [] {
      LexIrreflexive(a[1..]);
    }
  }

  lemma {:induction false} LexTotal(a: Bytes, b: Bytes)
    ensures a == b || LexLess(a, b) || LexLess(b, a)
  {
    if a != [] && b != [] {
      LexTotal(a[1..], b[1..]);
      if a[0] == b[0] && a[1..] == b[1..] {
        assert a == [a[0]] + a[1..] && b == [b[0]] + b[1..];
      }
    }
  }

  lemma {:induction false} LexTransitive(a: Bytes, b: Bytes, c: Bytes)
    requires LexLess(a, b) && LexLess(b, c)
    ensures LexLess(a, c)
  {
    if a != [] && a[0] == b[0] == c[0] {
      LexTransitive(a[1..], b[1..], c[1..]);
    }
  }

  lemma {:induction false} LexSnoc(a: Bytes, b: Bytes, x: Byte, y: Byte)
    requires |a| == |b|
    ensures LexLess(a + [x], b + [y]) <==> LexLess(a, b) || (a == b && x < y)
  {
    if a != [] {
      LexSnoc(a[1..], b[1..], x, y);
      assert (a + [x])[1..] == a[1..] + [x] && (b + [y])[1..] == b[1..] + [y];
      assert a == [a[0]] + a[1..] && b == [b[0]] + b[1..];
    }
  }

  /** Comparing two fixed-width encodings byte by byte is comparing the numbers, so a hash or a
      message ID may be read as one big-endian number. */
  lemma {:induction false} CompareIsNumeric(k: nat, m: nat, n: nat)
    requires m < Pow256(k) && n < Pow256(k)
    ensures LexLess(BigEndian(k, m), BigEndian(k, n)) <==> m < n
  {
    if k > 0 {
      CompareIsNumeric(k - 1, m / 256, n / 256);
      LexSnoc(BigEndian(k - 1, m / 256), BigEndian(k - 1, n / 256), m % 256, n % 256);
      DecodeBigEndian(k - 1, m / 256);
      DecodeBigEndian(k - 1, n / 256);
    }
  }
}
