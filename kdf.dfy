/** The per-message key derivation of XAES-256-GCM: a two-block counter-mode KDF
    in the manner of section 4.1 of NIST SP 800-108r1, with the CMAC subkey K1
    standing in for CMAC itself. */
module Kdf {
  import opened Bytes
  import opened Primitives

  /** The label byte 'X'. */
  const Label: byte := 0x58
  /** The nonce prefix N1 is the first 12 bytes of the 24-byte nonce. */
  const PrefixSize := 12

  /** The counter-mode input block `counter (2 bytes) || 'X' || 0x00 || N1`. */
  function KdfBlock(counter: byte, n1: seq<byte>): Block
    requires |n1| == PrefixSize
  {
    [0x00, counter, Label, 0x00] + n1
  }

  /** What AES encrypts for block `counter`: the input block XOR K1. */
  function KdfInput(k1: Block, counter: byte, n1: seq<byte>): Block
    requires |n1| == PrefixSize
  {
    Xor(KdfBlock(counter, n1), k1)
  }

  /** The 32-byte message key: AES_K of the counter-1 input, then of the counter-2 input. */
  function DeriveKey(aes: Aes, key: Key, k1: Block, n1: seq<byte>): Key
    requires |n1| == PrefixSize
  {
    aes(key, KdfInput(k1, 1, n1)) + aes(key, KdfInput(k1, 2, n1))
  }

  /** The message key is 32 bytes: AES_K of the counter-1 input block XOR K1, then
      AES_K of the counter-2 input block XOR K1. */
  lemma DeriveKeyLayout(aes: Aes, key: Key, k1: Block, n1: seq<byte>)
    requires |n1| == PrefixSize
    ensures |DeriveKey(aes, key, k1, n1)| == 2 * BlockSize
    ensures DeriveKey(aes, key, k1, n1)[..BlockSize] == aes(key, Xor(KdfBlock(1, n1), k1))
    ensures DeriveKey(aes, key, k1, n1)[BlockSize..] == aes(key, Xor(KdfBlock(2, n1), k1))
  {
  }

  /** AES under a fixed key is a permutation of blocks; the lemmas that need
      it take it as a hypothesis. */
  ghost predicate InjectiveUnder(aes: Aes, key: Key) {
    forall a, b :: aes(key, a) == aes(key, b) ==> a == b
  }

  /** Byte by byte, before encryption: bytes 0, 2 and 3 are the fixed header, byte 1
      the counter and bytes 4..15 the prefix, each XOR the same byte of K1. */
  lemma KdfInputLayout(k1: Block, counter: byte, n1: seq<byte>)
    requires |n1| == PrefixSize
    ensures KdfInput(k1, counter, n1)[0] == k1[0]
    ensures KdfInput(k1, counter, n1)[1] == counter ^ k1[1]
    ensures KdfInput(k1, counter, n1)[2] == Label ^ k1[2]
    ensures KdfInput(k1, counter, n1)[3] == k1[3]
    ensures forall i :: 0 <= i < PrefixSize ==> KdfInput(k1, counter, n1)[4 + i] == n1[i] ^ k1[4 + i]
  {
    var b := KdfBlock(counter, n1);
    assert b[0] == 0 && b[1] == counter && b[2] == Label && b[3] == 0;
    forall i | 0 <= i < PrefixSize ensures b[4 + i] == n1[i] {
    }
  }

  /** Domain separation of the two blocks: for any two prefixes, whatever K1 is,
      the counter-1 input and the counter-2 input differ (in byte 1). */
  lemma CountersSeparate(k1: Block, n1: seq<byte>, n1': seq<byte>)
    requires |n1| == PrefixSize && |n1'| == PrefixSize
    ensures KdfInput(k1, 1, n1) != KdfInput(k1, 2, n1')
    ensures KdfInput(k1, 1, n1)[1] != KdfInput(k1, 2, n1')[1]
  {
    KdfInputLayout(k1, 1, n1);
    KdfInputLayout(k1, 2, n1');
    var x := k1[1];
    assert (1 ^ x) != (2 ^ x);
  }

  /** Under a fixed K1 and counter, the input block determines the prefix: distinct
      prefixes give distinct blocks to encrypt. */
  lemma KdfInputInjective(k1: Block, counter: byte, n1: seq<byte>, n1': seq<byte>)
    requires |n1| == PrefixSize && |n1'| == PrefixSize
    requires KdfInput(k1, counter, n1) == KdfInput(k1, counter, n1')
    ensures n1 == n1'
  {
    XorInjective(KdfBlock(counter, n1), KdfBlock(counter, n1'), k1);
    assert n1 == KdfBlock(counter, n1)[4..];
    assert n1' == KdfBlock(counter, n1')[4..];
  }

  /** If AES under the master key is a permutation, distinct prefixes give message
      keys that differ in both halves. */
  lemma DerivedKeysDiffer(aes: Aes, key: Key, k1: Block, n1: seq<byte>, n1': seq<byte>)
    requires InjectiveUnder(aes, key)
    requires |n1| == PrefixSize && |n1'| == PrefixSize
    requires n1 != n1'
    ensures DeriveKey(aes, key, k1, n1)[..BlockSize] != DeriveKey(aes, key, k1, n1')[..BlockSize]
    ensures DeriveKey(aes, key, k1, n1)[BlockSize..] != DeriveKey(aes, key, k1, n1')[BlockSize..]
  {
    var k, k' := DeriveKey(aes, key, k1, n1), DeriveKey(aes, key, k1, n1');
    assert k[..BlockSize] == aes(key, KdfInput(k1, 1, n1));
    assert k'[..BlockSize] == aes(key, KdfInput(k1, 1, n1'));
    assert k[BlockSize..] == aes(key, KdfInput(k1, 2, n1));
    assert k'[BlockSize..] == aes(key, KdfInput(k1, 2, n1'));
    if k[..BlockSize] == k'[..BlockSize] {
      KdfInputInjective(k1, 1, n1, n1');
    }
    if k[BlockSize..] == k'[BlockSize..] {
      KdfInputInjective(k1, 2, n1, n1');
    }
  }

  /** If AES under the master key is a permutation, the first half of a message key
      never equals the second half of a message key, for the same prefix or another. */
  lemma DerivedKeyHalvesDiffer(aes: Aes, key: Key, k1: Block, n1: seq<byte>, n1': seq<byte>)
    requires InjectiveUnder(aes, key)
    requires |n1| == PrefixSize && |n1'| == PrefixSize
    ensures DeriveKey(aes, key, k1, n1)[..BlockSize] != DeriveKey(aes, key, k1, n1')[BlockSize..]
  {
    var k, k' := DeriveKey(aes, key, k1, n1), DeriveKey(aes, key, k1, n1');
    assert k[..BlockSize] == aes(key, KdfInput(k1, 1, n1));
    assert k'[BlockSize..] == aes(key, KdfInput(k1, 2, n1'));
    CountersSeparate(k1, n1, n1');
  }
}
