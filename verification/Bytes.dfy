/**
 Bytes as bounded integers, and the little- and big-endian words built from them.
 */
module Bytes {

  type byte = x: int | 0 <= x < 256 witness 0

  type bytes = seq<byte>

  const TWO32: int := 0x1_0000_0000

  const TWO64: int := 0x1_0000_0000_0000_0000

  function Min(a: int, b: int): int {
    if a < b then a else b
  }

  /** The `width` low bytes of n, least significant first. */
  function LittleEndian(n: nat, width: nat): (b: bytes)
    ensures |b| == width
  {
    if width == 0 then [] else [n % 256] + LittleEndian(n / 256, width - 1)
  }

  function FromLittleEndian(b: bytes): nat {
    if b == [] then 0 else b[0] + 256 * FromLittleEndian(b[1..])
  }

  function Pow256(k: nat): (p: nat)
    ensures p > 0
  {
    if k == 0 then 1 else 256 * Pow256(k - 1)
  }

  lemma {:induction false} LittleEndianRoundTrip(n: nat, width: nat)
    requires n < Pow256(width)
    ensures FromLittleEndian(LittleEndian(n, width)) == n
  {
    if width > 0 {
      assert n / 256 < Pow256(width - 1);
      LittleEndianRoundTrip(n / 256, width - 1);
      assert LittleEndian(n, width)[1..] == LittleEndian(n / 256, width - 1);
    }
  }

  /** The four bytes of n, most significant first. */
  function BigEndian32(n: nat): (b: bytes)
    ensures |b| == 4
  {
    [n / 0x100_0000 % 256, n / 0x1_0000 % 256, n / 0x100 % 256, n % 256]
  }

  function FromBigEndian32(b: bytes): (n: nat)
    requires |b| == 4
    ensures n < TWO32
  {
    var b0: int, b1: int, b2: int, b3: int := b[0], b[1], b[2], b[3];
    b0 * 0x100_0000 + b1 * 0x1_0000 + b2 * 0x100 + b3
  }

  lemma BigEndian32RoundTrip(n: nat)
    requires n < TWO32
    ensures FromBigEndian32(BigEndian32(n)) == n
  {
    assert n == n / 0x100 * 0x100 + n % 256;
    assert n / 0x100 == n / 0x1_0000 * 0x100 + n / 0x100 % 256;
    assert n / 0x1_0000 == n / 0x100_0000 * 0x100 + n / 0x1_0000 % 256;
  }
}
