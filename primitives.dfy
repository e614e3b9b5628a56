/** The primitives XAES-256-GCM is built from, taken as given: AES-256 block
    encryption and AES-256-GCM sealing and opening. They are values of arrow
    type supplied by the caller, so every property proved here holds for any
    block cipher and for any GCM that satisfies `GcmLawful`. */
module Primitives {
  import opened Bytes
  import opened Wrappers

  /** aes.BlockSize */
  const BlockSize := 16
  /** The GCM tag length, which is the whole of GCM's ciphertext expansion. */
  const TagSize := 16
  /** The standard GCM nonce length. */
  const GcmNonceSize := 12

  type Block = b: seq<byte> | |b| == BlockSize witness ZeroBlock
  /** An AES-256 key. */
  type Key = k: seq<byte> | |k| == 32 witness seq(32, _ => 0)
  type GcmNonce = n: seq<byte> | |n| == GcmNonceSize witness seq(12, _ => 0)

  const ZeroBlock: seq<byte> := seq(16, _ => 0)

  /** AES-256 encryption of one block under a 32-byte key (`aes.NewCipher(key)` then `Encrypt`). */
  type Aes = (Key, Block) -> Block

  /** The collaborators of the construction.
      gcmSeal(k, n, pt, ad) is the ciphertext and tag that AES-256-GCM under key k
      appends to its dst for nonce n; gcmOpen gives the plaintext, or None when
      authentication fails. */
  datatype Crypto = Crypto(
    aes: Aes,
    gcmSeal: (Key, GcmNonce, seq<byte>, seq<byte>) -> seq<byte>,
    gcmOpen: (Key, GcmNonce, seq<byte>, seq<byte>) -> Option<seq<byte>>)

  /** What the construction relies on from GCM: the ciphertext is the plaintext plus a
      16-byte tag, and opening what was sealed, under the same key, nonce and
      associated data, gives the plaintext back. */
  ghost predicate GcmLawful(c: Crypto) {
    forall k, n, pt, ad ::
      && |c.gcmSeal(k, n, pt, ad)| == |pt| + TagSize
      && c.gcmOpen(k, n, c.gcmSeal(k, n, pt, ad), ad) == Some(pt)
  }

  /** `c.Encrypt(b[off:off+16], b[off:off+16])` for `c` AES-256 under `key`: encrypt
      one block of `b` in place. */
  method EncryptBlock(aes: Aes, key: Key, b: array<byte>, off: nat)
    requires off + BlockSize <= b.Length
    modifies b
    ensures b[..] == old(b[..off]) + aes(key, old(b[off..off + BlockSize])) + old(b[off + BlockSize..])
  {
    var out := aes(key, b[off..off + BlockSize]);
    forall i | 0 <= i < BlockSize {
      b[off + i] := out[i];
    }
    assert b[..] == old(b[..off]) + out + old(b[off + BlockSize..]);
  }
}
