/** Bytes, fixed-width unsigned integers and their big-endian encoding. */
module Bytes {
  type byte = x: int | 0 <= x < 256
  type bytes = seq<byte>

  const U16_MAX: nat := 0xFFFF
  const U32_MAX: nat := 0xFFFF_FFFF
  const U64_MAX: nat := 0xFFFF_FFFF_FFFF_FFFF

  type u16 = x: nat | x <= U16_MAX
  type u32 = x: nat | x <= U32_MAX
  type u64 = x: nat | x <= U64_MAX

  /** The bytes of an ASCII string constant: each character's code. */
  function Ascii(s: string): (b: bytes)
    ensures |b| == |s|
    ensures forall i | 0 <= i < |s| && s[i] as int < 256 :: b[i] == s[i] as int
  {
    seq(|s|, i requires 0 <= i < |s| => (s[i] as int) % 256)
  }

  /** The number of values that fit in `n` bytes. */
  function Values(n: nat): (v: nat)
    ensures v >= 1
  {
    if n == 0 then 1 else 256 * Values(n - 1)
  }

  /** The low `n` bytes of `v`, most significant first. */
  function ToBE(n: nat, v: nat): (b: bytes)
    ensures |b| == n
  {
    if n == 0 then [] else ToBE(n - 1, v / 256) + [v % 256]
  }

  function FromBE(b: bytes): (v: nat)
    ensures v < Values(|b|)
  {
    if b == [] then 0 else 256 * FromBE(b[..|b| - 1]) + b[|b| - 1]
  }

  lemma {:induction false} FromToBE(n: nat, v: nat)
    requires v < Values(n)
    ensures FromBE(ToBE(n, v)) == v
  {
    if n > 0 {
      FromToBE(n - 1, v / 256);
      var b := ToBE(n, v);
      assert b[..|b| - 1] == ToBE(n - 1, v / 256);
    }
  }

  lemma {:induction false} ToFromBE(b: bytes)
    ensures ToBE(|b|, FromBE(b)) == b
  {
    if b != [] {
      var front := b[..|b| - 1];
      ToFromBE(front);
      assert FromBE(b) / 256 == FromBE(front);
      assert b == front + [b[|b| - 1]];
    }
  }

  lemma Regroup(x: nat, v: nat)
    ensures 256 * (x * v) == x * (256 * v)
  {
  }

  /** The first byte is the most significant one. */
  lemma {:induction false} MostSignificantFirst(b: bytes)
    requires b != []
    ensures FromBE(b) == b[0] * Values(|b| - 1) + FromBE(b[1..])
  {
    if |b| > 1 {
      var k := |b| - 1;
      var front, tail := b[..k], b[1..];
      MostSignificantFirst(front);
      assert tail[..k - 1] == front[1..] && tail[k - 1] == b[k];
      assert FromBE(b) == 256 * FromBE(front) + b[k];
      assert FromBE(tail) == 256 * FromBE(front[1..]) + b[k];
      assert Values(k) == 256 * Values(k - 1);
      Regroup(b[0], Values(k - 1));
      hide FromBE, Values;
    }
  }

  lemma BEWidths()
    ensures Values(2) == U16_MAX + 1
    ensures Values(4) == U32_MAX + 1
    ensures Values(8) == U64_MAX + 1
  {
    assert Values(2) == 0x1_0000;
    assert Values(4) == 0x1_0000 * Values(2);
    assert Values(6) == 0x1_0000 * Values(4);
    assert Values(8) == 0x1_0000 * Values(6);
  }

  function U16FromBE(b: bytes): u16
    requires |b| == 2
  {
    BEWidths();
    FromBE(b)
  }

  function U16ToBE(v: u16): (b: bytes)
    ensures |b| == 2
    ensures U16FromBE(b) == v
  {
    BEWidths();
    FromToBE(2, v);
    ToBE(2, v)
  }

  function U32FromBE(b: bytes): u32
    requires |b| == 4
  {
    BEWidths();
    FromBE(b)
  }

  function U32ToBE(v: u32): (b: bytes)
    ensures |b| == 4
    ensures U32FromBE(b) == v
  {
    BEWidths();
    FromToBE(4, v);
    ToBE(4, v)
  }

  function U64FromBE(b: bytes): u64
    requires |b| == 8
  {
    BEWidths();
    FromBE(b)
  }

  function U64ToBE(v: u64): (b: bytes)
    ensures |b| == 8
    ensures U64FromBE(b) == v
  {
    BEWidths();
    FromToBE(8, v);
    ToBE(8, v)
  }

  /** The length 1120 on the wire. */
  lemma BigEndian1120()
    ensures U16ToBE(1120) == [0x04, 0x60] && U16FromBE([0x04, 0x60]) == 1120
  {
    assert ToBE(1, 4) == ToBE(0, 0) + [4];
    assert ToBE(2, 1120) == ToBE(1, 4) + [0x60];
  }

  /** Two concatenations whose first parts are equally long agree part by part. */
  lemma SplitConcat(a: bytes, b: bytes, c: bytes, d: bytes)
    requires |a| == |c|
    requires a + b == c + d
    ensures a == c && b == d
  {
    assert a == (a + b)[..|a|];
    assert c == (c + d)[..|c|];
    assert b == (a + b)[|a|..];
    assert d == (c + d)[|c|..];
  }
}
