/** Bytes as 8-bit bit-vectors, so that Go's byte shifts, ORs and XORs keep their
    wrap-around meaning, together with two readings of a byte string: as a
    big-endian natural number and as a string of bits, most significant first. */
module Bytes {

  type byte = bv8

  /** Bytewise XOR of two strings of equal length (Go's `subtle.XORBytes`). */
  function Xor(a: seq<byte>, b: seq<byte>): (r: seq<byte>)
    requires |a| == |b|
    ensures |r| == |a|
    ensures forall i :: 0 <= i < |r| ==> r[i] == a[i] ^ b[i]
  {
    seq(|a|, i requires 0 <= i < |a| => a[i] ^ b[i])
  }

  /** XOR with a fixed string is undone by XOR with the same string. */
  lemma XorCancel(a: seq<byte>, k: seq<byte>)
    requires |a| == |k|
    ensures Xor(Xor(a, k), k) == a
  {
    var r := Xor(Xor(a, k), k);
    forall i | 0 <= i < |a| ensures r[i] == a[i] {
      assert r[i] == (a[i] ^ k[i]) ^ k[i];
    }
  }

  /** XOR with a fixed string is injective. */
  lemma XorInjective(a: seq<byte>, b: seq<byte>, k: seq<byte>)
    requires |a| == |k| && |b| == |k|
    requires Xor(a, k) == Xor(b, k)
    ensures a == b
  {
    XorCancel(a, k);
    XorCancel(b, k);
  }

  /** Go's `subtle.XORBytes(b[off:], b[off:], k)`: XOR `k` into `b` at `off`, in place. */
  method XorBytes(b: array<byte>, off: nat, k: seq<byte>)
    requires off + |k| <= b.Length
    modifies b
    ensures b[..] == old(b[..off]) + Xor(old(b[off..off + |k|]), k) + old(b[off + |k|..])
  {
    ghost var before := b[..];
    for i := 0 to |k|
      invariant forall j :: 0 <= j < i ==> b[off + j] == before[off + j] ^ k[j]
      invariant forall j :: 0 <= j < b.Length && !(off <= j < off + i) ==> b[j] == before[j]
    {
      b[off + i] := b[off + i] ^ k[i];
    }
    assert b[..] == before[..off] + Xor(before[off..off + |k|], k) + before[off + |k|..];
  }

  function Pow256(n: nat): (p: nat)
    ensures p > 0
  {
    if n == 0 then 1 else 256 * Pow256(n - 1)
  }

  /** The value of a byte string read as a big-endian unsigned integer: the last
      byte is the least significant digit in base 256. */
  function BE(s: seq<byte>): (v: nat)
    ensures v < Pow256(|s|)
  {
    if s == [] then 0 else 256 * BE(s[..|s| - 1]) + s[|s| - 1] as int
  }

  /** Appending a byte shifts the value up by one digit. */
  lemma BESnoc(u: seq<byte>, x: byte)
    ensures BE(u + [x]) == 256 * BE(u) + x as int
  {
    assert (u + [x])[..|u|] == u;
  }

  /** Bit `j` of byte `x`, counting from the most significant bit (j == 0). */
  predicate Bit(x: byte, j: nat)
    requires j < 8
  {
    x & BitMask(j) != 0
  }

  /** The byte whose only set bit is bit `j`, counting from the most significant. */
  function BitMask(j: nat): (m: byte)
    requires j < 8
    ensures m == 0x80 || m == 0x40 || m == 0x20 || m == 0x10 || m == 0x08 || m == 0x04 || m == 0x02 || m == 0x01
  {
    match j
    case 0 => 0x80 case 1 => 0x40 case 2 => 0x20 case 3 => 0x10
    case 4 => 0x08 case 5 => 0x04 case 6 => 0x02 case _ => 0x01
  }

  lemma SingleBitXor(x: byte, y: byte, m: byte)
    requires m == 0x80 || m == 0x40 || m == 0x20 || m == 0x10 || m == 0x08 || m == 0x04 || m == 0x02 || m == 0x01
    ensures ((x ^ y) & m != 0) == ((x & m != 0) != (y & m != 0))
  {
  }

  /** XOR acts bit by bit. */
  lemma XorBit(x: byte, y: byte, j: nat)
    requires j < 8
    ensures Bit(x ^ y, j) == (Bit(x, j) != Bit(y, j))
  {
    var m := BitMask(j);
    SingleBitXor(x, y, m);
    assert Bit(x ^ y, j) == ((x ^ y) & m != 0);
    assert Bit(x, j) == (x & m != 0);
    assert Bit(y, j) == (y & m != 0);
  }

  /** The bit string of a byte string, most significant bit of the first byte first. */
  function Bits(s: seq<byte>): (b: seq<bool>)
    ensures |b| == 8 * |s|
  {
    seq(8 * |s|, p requires 0 <= p < 8 * |s| => Bit(s[p / 8], p % 8))
  }

  /** Position 8 * i + j of the bit string is bit j of byte i. */
  lemma BitsAt(s: seq<byte>, i: nat, j: nat)
    requires i < |s| && j < 8
    ensures 8 * i + j < 8 * |s|
    ensures Bits(s)[8 * i + j] == Bit(s[i], j)
  {
    var p := 8 * i + j;
    assert p / 8 == i && p % 8 == j;
  }
}
