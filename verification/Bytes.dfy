/** Bytes and the big-endian integer codec (`to_be_bytes` and `from_be_bytes`). */
module Bytes {
  type Byte = b: int | 0 <= b < 256

  const U32_LIMIT: nat := 0x1_0000_0000
  const U64_LIMIT: nat := 0x1_0000_0000_0000_0000

  function Min(a: nat, b: nat): nat { if a <= b then a else b }

  function Max(a: nat, b: nat): nat { if a <= b then b else a }

  function Pow256(width: nat): (p: nat)
    ensures p > 0
  {
    if width == 0 then 1 else 256 * Pow256(width - 1)
  }

  lemma PowerValues()
    ensures Pow256(4) == U32_LIMIT
    ensures Pow256(8) == U64_LIMIT
  {
    assert Pow256(2) == 0x1_0000;
    assert Pow256(4) == 0x1_0000_0000;
    assert Pow256(6) == 0x1_0000_0000_0000;
  }

  // The low `width` bytes of n, most significant first: casting to the width and `to_be_bytes`.
  function BigEndian(n: nat, width: nat): (s: seq<Byte>)
    ensures |s| == width
  {
    if width == 0 then [] else BigEndian(n / 256, width - 1) + [n % 256]
  }

  function FromBigEndian(s: seq<Byte>): (n: nat)
    ensures n < Pow256(|s|)
  {
    if s == [] then 0 else 256 * FromBigEndian(s[..|s| - 1]) + s[|s| - 1]
  }

  lemma {:induction false} BigEndianRoundTrip(n: nat, width: nat)
    requires n < Pow256(width)
    ensures FromBigEndian(BigEndian(n, width)) == n
  {
    if width > 0 {
      var high := BigEndian(n / 256, width - 1);
      BigEndianRoundTrip(n / 256, width - 1);
      FromBigEndianSnoc(high, n % 256);
    }
  }

  lemma FromBigEndianSnoc(high: seq<Byte>, low: Byte)
    ensures FromBigEndian(high + [low]) == 256 * FromBigEndian(high) + low
  {
    var s := high + [low];
    assert s[..|s| - 1] == high;
  }

  /** Most significant byte first. */
  lemma CountingBytes()
    ensures BigEndian(0x0102_0304, 4) == [1, 2, 3, 4]
    ensures BigEndian(0x0102_0304_0506_0708, 8) == [1, 2, 3, 4, 5, 6, 7, 8]
  {
    assert BigEndian(0x01, 1) == [1];
    assert BigEndian(0x0102, 2) == [1, 2];
    assert BigEndian(0x01_0203, 3) == [1, 2, 3];
    assert BigEndian(0x0102_0304, 4) == [1, 2, 3, 4];
    assert BigEndian(0x01_0203_0405, 5) == [1, 2, 3, 4, 5];
    assert BigEndian(0x0102_0304_0506, 6) == [1, 2, 3, 4, 5, 6];
    assert BigEndian(0x01_0203_0405_0607, 7) == [1, 2, 3, 4, 5, 6, 7];
  }

  lemma {:induction false} SmallNumberBytes(n: Byte, width: nat)
    requires width > 0
    ensures BigEndian(n, width) == Repeat(0, width - 1) + [n]
  {
    ZeroBytes(width - 1);
    assert n / 256 == 0 && n % 256 == n;
  }

  lemma RoundTrip32(n: nat)
    requires n < U32_LIMIT
    ensures FromBigEndian(BigEndian(n, 4)) == n
  {
    PowerValues();
    BigEndianRoundTrip(n, 4);
  }

  lemma RoundTrip64(n: nat)
    requires n < U64_LIMIT
    ensures FromBigEndian(BigEndian(n, 8)) == n
  {
    PowerValues();
    BigEndianRoundTrip(n, 8);
  }

  lemma Middle(a: seq<Byte>, b: seq<Byte>, c: seq<Byte>)
    ensures (a + b + c)[|a|..|a| + |b|] == b
  {
  }

  function Repeat(b: Byte, count: nat): (s: seq<Byte>)
    ensures |s| == count
    ensures forall i :: 0 <= i < count ==> s[i] == b
  {
    seq(count, _ => b)
  }

  // `File::set_len`: cut, or extend with zero bytes.
  function SetLength(file: seq<Byte>, length: nat): (r: seq<Byte>)
    ensures |r| == length
    ensures forall i :: 0 <= i < length ==> r[i] == if i < |file| then file[i] else 0
  {
    if length <= |file| then file[..length] else file + Repeat(0, length - |file|)
  }

  lemma {:induction false} ZeroBytes(width: nat)
    ensures BigEndian(0, width) == Repeat(0, width)
  {
    if width > 0 {
      ZeroBytes(width - 1);
    }
  }
}
