/** The subkey K1 of XAES-256-GCM: L = AES-256_K(0^128) doubled in GF(2^128),
    the subkey step of CMAC (section 6.1 of NIST SP 800-38B). */
module Gf128 {
  import opened Bytes
  import opened Primitives

  /** Every byte shifted left by one bit, taking the top bit of the next byte as
      its new low bit and `cin` as the low bit of the last byte; the top bit of the
      first byte is shifted out. */
  function ShiftLeftIn(s: seq<byte>, cin: byte): (r: seq<byte>)
    ensures |r| == |s|
  {
    seq(|s|, i requires 0 <= i < |s| => ShiftedByte(s, i, cin))
  }

  /** Byte `i` of `ShiftLeftIn(s, cin)`. */
  function ShiftedByte(s: seq<byte>, i: nat, cin: byte): byte
    requires i < |s|
  {
    (s[i] << 1) | (if i + 1 < |s| then s[i + 1] >> 7 else cin)
  }

  /** The shift of the whole string, with a zero bit shifted in at the end. */
  function ShiftLeft1(s: seq<byte>): (r: seq<byte>)
    ensures |r| == |s|
  {
    ShiftLeftIn(s, 0)
  }

  /** The most significant bit of a byte string, as the byte 0 or 1. */
  function Msb(s: seq<byte>): byte
    requires |s| > 0
  {
    s[0] >> 7
  }

  /** K1 as the loop computes it: shift left, then XOR 0b10000111 into the last
      byte when the shifted-out bit was set. */
  function Double(l: Block): Block
  {
    var s := ShiftLeft1(l);
    s[..15] + [s[15] ^ (Msb(l) * 0x87)]
  }

  /** R_128 = 0^120 || 10000111 as bytes; it stands for the reduction polynomial
      x^128 + x^7 + x^2 + x + 1. */
  function RBlock(): Block {
    seq(15, _ => 0 as byte) + [0x87]
  }

  /** The bit string of R_128. */
  function R128(): (r: seq<bool>)
    ensures |r| == 128
  {
    Bits(RBlock())
  }

  function XorBits(a: seq<bool>, b: seq<bool>): (r: seq<bool>)
    requires |a| == |b|
    ensures |r| == |a|
  {
    seq(|a|, i requires 0 <= i < |a| => a[i] != b[i])
  }

  /** Multiplication by x in GF(2^128), on 128-bit strings, the most significant
      bit first: L << 1 if MSB(L) = 0, (L << 1) XOR R_128 otherwise. */
  function GfDouble(b: seq<bool>): (r: seq<bool>)
    requires |b| == 128
    ensures |r| == 128
  {
    var shifted := b[1..] + [false];
    if b[0] then XorBits(shifted, R128()) else shifted
  }

  /** The loop of `newWithManualNonces`: shift `k1` left by one bit, from the last
      byte to the first, carrying each byte's top bit into the byte before it, then
      XOR the reduction constant into the last byte if a bit fell off the front. */
  method DoubleInPlace(k1: array<byte>)
    requires k1.Length == BlockSize
    modifies k1
    ensures k1[..] == Double(old(k1[..]))
  {
    ghost var l := k1[..];
    var msb: byte := 0;
    for i := k1.Length downto 0
      invariant msb == if i == 16 then 0 else l[i] >> 7
      invariant forall j :: 0 <= j < i ==> k1[j] == l[j]
      invariant forall j :: i <= j < 16 ==> k1[j] == ShiftLeft1(l)[j]
    {
      msb, k1[i] := k1[i] >> 7, (k1[i] << 1) | msb;
    }
    k1[15] := k1[15] ^ (msb * 0x87);
    assert k1[..] == ShiftLeft1(l)[..15] + [ShiftLeft1(l)[15] ^ (Msb(l) * 0x87)];
  }

  /** Shifting one byte left with carry-in `c`, read as integers: twice the byte plus
      the carry, less 256 when the top bit falls off. */
  lemma ShiftedByteValue(x: byte, c: byte)
    requires c == 0 || c == 1
    ensures ((x << 1) | c) as int == 2 * (x as int) + (c as int) - 256 * ((x >> 7) as int)
  {
  }

  lemma TopBit(x: byte)
    ensures x >> 7 == 0 || x >> 7 == 1
  {
  }

  /** Shifting `u + [x]` is shifting `u` with the top bit of `x` carried in, followed
      by the shifted `x`. */
  lemma ShiftLeftInSnoc(u: seq<byte>, x: byte, cin: byte)
    ensures ShiftLeftIn(u + [x], cin) == ShiftLeftIn(u, x >> 7) + [(x << 1) | cin]
  {
    var s := u + [x];
    var a, b := ShiftLeftIn(s, cin), ShiftLeftIn(u, x >> 7) + [(x << 1) | cin];
    forall i | 0 <= i < |a| ensures a[i] == b[i] {
      if i + 1 < |u| {
        assert a[i] == (u[i] << 1) | (u[i + 1] >> 7);
      } else if i + 1 == |u| {
        assert a[i] == (u[i] << 1) | (x >> 7);
      } else {
        assert a[i] == (x << 1) | cin;
      }
    }
  }

  /** The arithmetic meaning of the shift: twice the big-endian value of `s` plus the
      carry shifted in is the value of the shifted string plus the bit shifted out of
      the front, in position 8 * |s|. */
  lemma {:induction false} ShiftLeftInValue(s: seq<byte>, cin: byte)
    requires |s| > 0 && (cin == 0 || cin == 1)
    ensures BE(ShiftLeftIn(s, cin)) + (Msb(s) as int) * Pow256(|s|) == 2 * BE(s) + cin as int
  {
    if |s| == 1 {
      ShiftLeftInValueOne(s, cin);
    } else {
      var u, c := s[..|s| - 1], s[|s| - 1] >> 7;
      SnocValues(s, cin);
      ShiftLeftInValue(u, c);
      TopBit(u[0]);
      StepAlgebra(Msb(u) as int, Pow256(|u|), Pow256(|s|), BE(u), BE(ShiftLeftIn(u, c)),
        s[|s| - 1] as int, c as int, cin as int, BE(s), BE(ShiftLeftIn(s, cin)));
    }
  }

  lemma ShiftLeftInValueOne(s: seq<byte>, cin: byte)
    requires |s| == 1 && (cin == 0 || cin == 1)
    ensures BE(ShiftLeftIn(s, cin)) + (Msb(s) as int) * Pow256(|s|) == 2 * BE(s) + cin as int
  {
    var u, c := s[..0], s[0] >> 7;
    SnocValues(s, cin);
    assert BE(u) == 0 && BE(ShiftLeftIn(u, c)) == 0;
    assert Pow256(|s|) == 256;
  }

  /** The last byte of `s` split off, on both sides of the shift, read as integers. */
  lemma SnocValues(s: seq<byte>, cin: byte)
    requires |s| > 0 && (cin == 0 || cin == 1)
    ensures var u, x := s[..|s| - 1], s[|s| - 1];
      && (x >> 7 == 0 || x >> 7 == 1)
      && BE(s) == 256 * BE(u) + x as int
      && BE(ShiftLeftIn(s, cin)) == 256 * BE(ShiftLeftIn(u, x >> 7))
           + 2 * (x as int) + (cin as int) - 256 * ((x >> 7) as int)
      && Msb(s) == if |u| == 0 then x >> 7 else Msb(u)
  {
    var u, x := s[..|s| - 1], s[|s| - 1];
    assert s == u + [x];
    var y := (x << 1) | cin;
    TopBit(x);
    ShiftLeftInSnoc(u, x, cin);
    ShiftedByteValue(x, cin);
    BESnoc(u, x);
    BESnoc(ShiftLeftIn(u, x >> 7), y);
  }

  lemma StepAlgebra(m: int, pu: int, ps: int, bu: int, bsu: int, x: int, c: int, cin: int, bs: int, bss: int)
    requires m == 0 || m == 1
    requires ps == 256 * pu
    requires bsu + m * pu == 2 * bu + c
    requires bs == 256 * bu + x
    requires bss == 256 * bsu + 2 * x + cin - 256 * c
    ensures bss + m * ps == 2 * bs + cin
  {
    if m == 1 {
      assert m * ps == 256 * (m * pu);
    }
  }

  lemma Pow256Of16()
    ensures Pow256(16) == 0x1_0000_0000_0000_0000_0000_0000_0000_0000
  {
    assert Pow256(1) == 0x100;
    assert Pow256(2) == 0x10000;
    assert Pow256(3) == 0x1000000;
    assert Pow256(4) == 0x100000000;
    assert Pow256(5) == 0x10000000000;
    assert Pow256(6) == 0x1000000000000;
    assert Pow256(7) == 0x100000000000000;
    assert Pow256(8) == 0x10000000000000000;
    assert Pow256(9) == 0x1000000000000000000;
    assert Pow256(10) == 0x100000000000000000000;
    assert Pow256(11) == 0x10000000000000000000000;
    assert Pow256(12) == 0x1000000000000000000000000;
    assert Pow256(13) == 0x100000000000000000000000000;
    assert Pow256(14) == 0x10000000000000000000000000000;
    assert Pow256(15) == 0x1000000000000000000000000000000;
  }

  /** For a 16-byte L: the shift is multiplication by 2 modulo 2^128, the bit shifted
      out is the top bit of L, and the low bit of the last byte is left clear, so
      that the carry into the last byte is 0. */
  lemma ShiftLeft1IsDoubling(l: Block)
    ensures BE(ShiftLeft1(l)) == (2 * BE(l)) % Pow256(16)
    ensures Msb(l) == 1 <==> BE(l) >= Pow256(16) / 2
    ensures Msb(l) == 0 || Msb(l) == 1
    ensures ShiftLeft1(l)[15] & 1 == 0
  {
    TopBit(l[0]);
    ShiftLeftInValue(l, 0);
    Pow256Of16();
    var m := Pow256(16);
    assert Msb(l) == 0 || Msb(l) == 1;
    var v := BE(ShiftLeft1(l));
    assert 0 <= v < m;
    if Msb(l) == 1 {
      assert 2 * BE(l) == v + m;
    } else {
      assert 2 * BE(l) == v;
    }
  }

  /** Byte by byte: K1 is the shifted L, XOR R_128 exactly when the top bit of L was
      set; with `ShiftLeft1IsDoubling`, K1 = (2 * L mod 2^128) XOR (R_128 or 0). */
  lemma DoubleIsShiftXor(l: Block)
    ensures Double(l) == Xor(ShiftLeft1(l), if Msb(l) == 1 then RBlock() else ZeroBlock)
  {
    var s, c := ShiftLeft1(l), if Msb(l) == 1 then RBlock() else ZeroBlock;
    var d, x := Double(l), Xor(s, c);
    forall i | 0 <= i < 16 ensures d[i] == x[i] {
      if i < 15 {
        assert c[i] == 0;
        assert d[i] == s[i];
      } else {
        assert c[i] == Msb(l) * 0x87 by {
          TopBit(l[0]);
        }
      }
    }
  }

  /** Bit-level facts about the bytes that `Double` is made of. */
  lemma ShiftedBits(x: byte, y: byte, j: nat)
    requires j < 8
    ensures Bit((x << 1) | (y >> 7), j) == if j < 7 then Bit(x, j + 1) else Bit(y, 0)
    ensures Bit(x << 1, j) == if j < 7 then Bit(x, j + 1) else false
  {
  }

  /** Bit `j` of byte `i < 15` of K1 is the next bit of L: the shift. */
  lemma DoubleBitInner(l: Block, i: nat, j: nat)
    requires i < 15 && j < 8
    ensures Bit(Double(l)[i], j) == if j < 7 then Bit(l[i], j + 1) else Bit(l[i + 1], 0)
  {
    assert Double(l)[i] == (l[i] << 1) | (l[i + 1] >> 7);
    ShiftedBits(l[i], l[i + 1], j);
  }

  /** Bit `j` of the last byte of K1 is the next bit of L (0 for the last one), XOR
      bit `j` of 0x87 when the top bit of L was set. */
  lemma DoubleBitLast(l: Block, j: nat)
    requires j < 8
    ensures Bit(Double(l)[15], j) == ((if j < 7 then Bit(l[15], j + 1) else false) != (Bit(l[0], 0) && Bit(0x87, j)))
  {
    var m: byte := Msb(l) * 0x87;
    assert Double(l)[15] == (l[15] << 1) ^ m;
    assert Bit(l[0], 0) <==> Msb(l) == 1;
    assert Msb(l) == 0 || Msb(l) == 1;
    XorBit(l[15] << 1, m, j);
    ShiftedBits(l[15], 0, j);
  }

  /** R_128 has its only set bits in the last byte, where they spell 0x87. */
  lemma R128At(i: nat, j: nat)
    requires i < 16 && j < 8
    ensures R128()[8 * i + j] == (i == 15 && Bit(0x87, j))
  {
    BitsAt(RBlock(), i, j);
    assert RBlock()[i] == if i == 15 then 0x87 else 0;
  }

  /** One position of `GfDouble`: the next bit, XOR R_128's bit when the top bit is set. */
  lemma GfDoubleAt(b: seq<bool>, p: nat)
    requires |b| == 128 && p < 128
    ensures GfDouble(b)[p] == ((if p < 127 then b[p + 1] else false) != (b[0] && R128()[p]))
  {
  }

  /** The bit after position 8 * i + j of a byte string. */
  lemma NextBit(s: seq<byte>, i: nat, j: nat)
    requires i + 1 < |s| && j < 8
    ensures 8 * i + j + 1 < |Bits(s)|
    ensures Bits(s)[8 * i + j + 1] == if j < 7 then Bit(s[i], j + 1) else Bit(s[i + 1], 0)
  {
    if j < 7 {
      BitsAt(s, i, j + 1);
    } else {
      BitsAt(s, i + 1, 0);
    }
  }

  /** Position 8 * i + j of `DoubleIsGfDouble`, for a byte i before the last. */
  lemma DoubleBitAtInner(l: Block, i: nat, j: nat)
    requires i < 15 && j < 8
    ensures Bits(Double(l))[8 * i + j] == GfDouble(Bits(l))[8 * i + j]
  {
    BitsAt(Double(l), i, j);
    DoubleBitInner(l, i, j);
    NextBit(l, i, j);
    R128At(i, j);
    GfDoubleAt(Bits(l), 8 * i + j);
  }

  /** Position 8 * 15 + j of `DoubleIsGfDouble`: the last byte. */
  lemma DoubleBitAtLast(l: Block, j: nat)
    requires j < 8
    ensures Bits(Double(l))[120 + j] == GfDouble(Bits(l))[120 + j]
  {
    BitsAt(Double(l), 15, j);
    R128At(15, j);
    BitsAt(l, 0, 0);
    GfDoubleAt(Bits(l), 120 + j);
    DoubleBitLast(l, j);
    if j < 7 {
      BitsAt(l, 15, j + 1);
    }
  }

  /** The byte loop computes the GF(2^128) doubling of SP 800-38B: K1 read as a bit
      string is L shifted left by one, XORed with R_128 exactly when MSB(L) was 1. */
  lemma DoubleIsGfDouble(l: Block)
    ensures Bits(Double(l)) == GfDouble(Bits(l))
  {
    forall p | 0 <= p < 128 ensures Bits(Double(l))[p] == GfDouble(Bits(l))[p] {
      var i, j := p / 8, p % 8;
      assert p == 8 * i + j;
      if i < 15 {
        DoubleBitAtInner(l, i, j);
      } else {
        DoubleBitAtLast(l, j);
      }
    }
  }
}
