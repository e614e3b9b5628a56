/** XAES-256-GCM sealing and opening as functions of an instance's value: the
    manual-nonce operations, which split a 24-byte nonce into a KDF prefix and a
    GCM nonce, and the automatic-nonce operations, which carry the nonce in
    front of the ciphertext. */
module Aead {
  import opened Bytes
  import opened Wrappers
  import opened Primitives
  import opened Gf128
  import opened Kdf

  /** The size of XAES-256-GCM keys. */
  const KeySize := 32
  /** The size of the nonces the manual-nonce operations take. */
  const NonceSize := 24
  /** Ciphertext expansion of the manual-nonce operations: the GCM tag. */
  const OverheadWithManualNonces := 16
  /** Ciphertext expansion of the automatic-nonce operations: nonce and tag. */
  const Overhead := 40

  /** The errors the operations return. `ErrOpen` is the automatic-nonce wrapper's
      "message authentication failed"; `GcmAuthFailed` is whatever GCM's Open reports. */
  datatype Error = BadKeyLength | BadNonceLength | ErrOpen | GcmAuthFailed

  /** The value of a manual-nonce instance: its collaborators, the master key the
      block cipher was keyed with, and the subkey K1. */
  datatype Instance = Instance(crypto: Crypto, key: Key, k1: Block)

  /** K1 as construction computes it, from the master key alone. */
  function SubkeyOf(crypto: Crypto, key: Key): Block {
    Double(crypto.aes(key, ZeroBlock))
  }

  /** Manual-nonce Seal: derive the message key from the first 12 nonce bytes and
      GCM-seal under the last 12, appending to `dst`. */
  function SealManual(x: Instance, dst: seq<byte>, nonce: seq<byte>, plaintext: seq<byte>, additionalData: seq<byte>): (r: seq<byte>)
    requires |nonce| == NonceSize
    ensures |r| >= |dst| && r[..|dst|] == dst
    ensures GcmLawful(x.crypto) ==> |r| == |dst| + |plaintext| + OverheadWithManualNonces
  {
    var k := DeriveKey(x.crypto.aes, x.key, x.k1, nonce[..PrefixSize]);
    dst + x.crypto.gcmSeal(k, nonce[PrefixSize..], plaintext, additionalData)
  }

  /** Manual-nonce Open: a nonce of the wrong length is an error; otherwise the same
      split and key as Seal, and GCM's verdict, with the plaintext appended to `dst`. */
  function OpenManual(x: Instance, dst: seq<byte>, nonce: seq<byte>, ciphertext: seq<byte>, additionalData: seq<byte>): (r: Result<seq<byte>, Error>)
    ensures r == Err(BadNonceLength) <==> |nonce| != NonceSize
    ensures r.Err? ==> r.error == BadNonceLength || r.error == GcmAuthFailed
    ensures r.Ok? ==> |r.value| >= |dst| && r.value[..|dst|] == dst
    ensures |nonce| == NonceSize ==>
      var g := x.crypto.gcmOpen(DeriveKey(x.crypto.aes, x.key, x.k1, nonce[..PrefixSize]), nonce[PrefixSize..], ciphertext, additionalData);
      && (r == Err(GcmAuthFailed) <==> g.None?)
      && (r.Ok? ==> r.value == dst + g.value)
  {
    if |nonce| != NonceSize then Err(BadNonceLength)
    else
      var k := DeriveKey(x.crypto.aes, x.key, x.k1, nonce[..PrefixSize]);
      match x.crypto.gcmOpen(k, nonce[PrefixSize..], ciphertext, additionalData)
      case Some(plaintext) => Ok(dst + plaintext)
      case None => Err(GcmAuthFailed)
  }

  /** Automatic-nonce Seal, given the 24 random bytes: they are appended to `dst`, and
      the manual Seal under them appends the ciphertext after them. */
  function SealAuto(x: Instance, dst: seq<byte>, random: seq<byte>, plaintext: seq<byte>, additionalData: seq<byte>): (r: seq<byte>)
    requires |random| == NonceSize
    ensures |r| >= |dst| + NonceSize && r[..|dst|] == dst && r[|dst|..|dst| + NonceSize] == random
    ensures GcmLawful(x.crypto) ==> |r| == |dst| + |plaintext| + Overhead
  {
    SealManual(x, dst + random, random, plaintext, additionalData)
  }

  /** Automatic-nonce Open: a caller nonce is an error, so is a ciphertext too short
      to hold a nonce (`ErrOpen`); otherwise the first 24 bytes are the nonce. */
  function OpenAuto(x: Instance, dst: seq<byte>, nonce: seq<byte>, ciphertext: seq<byte>, additionalData: seq<byte>): (r: Result<seq<byte>, Error>)
    ensures r == Err(BadNonceLength) <==> |nonce| != 0
    ensures r == Err(ErrOpen) <==> |nonce| == 0 && |ciphertext| < NonceSize
    ensures r.Ok? ==> |r.value| >= |dst| && r.value[..|dst|] == dst
  {
    if |nonce| != 0 then Err(BadNonceLength)
    else if |ciphertext| < NonceSize then Err(ErrOpen)
    else OpenManual(x, dst, ciphertext[..NonceSize], ciphertext[NonceSize..], additionalData)
  }

  /** Opening what manual Seal produced, after the `dst` it was appended to, with the
      same nonce and associated data, gives back the plaintext. */
  lemma ManualRoundTrip(x: Instance, dst: seq<byte>, dst': seq<byte>, nonce: seq<byte>, plaintext: seq<byte>, additionalData: seq<byte>)
    requires GcmLawful(x.crypto)
    requires |nonce| == NonceSize
    ensures OpenManual(x, dst', nonce, SealManual(x, dst, nonce, plaintext, additionalData)[|dst|..], additionalData)
      == Ok(dst' + plaintext)
  {
    var k := DeriveKey(x.crypto.aes, x.key, x.k1, nonce[..PrefixSize]);
    var ct := x.crypto.gcmSeal(k, nonce[PrefixSize..], plaintext, additionalData);
    assert SealManual(x, dst, nonce, plaintext, additionalData)[|dst|..] == ct;
    assert x.crypto.gcmOpen(k, nonce[PrefixSize..], ct, additionalData) == Some(plaintext);
  }

  /** The automatic-nonce layout: dst || nonce (24) || manual ciphertext and tag. */
  lemma AutoSealLayout(x: Instance, dst: seq<byte>, random: seq<byte>, plaintext: seq<byte>, additionalData: seq<byte>)
    requires |random| == NonceSize
    ensures SealAuto(x, dst, random, plaintext, additionalData)
      == dst + random + SealManual(x, [], random, plaintext, additionalData)
  {
    var k := DeriveKey(x.crypto.aes, x.key, x.k1, random[..PrefixSize]);
    var ct := x.crypto.gcmSeal(k, random[PrefixSize..], plaintext, additionalData);
    assert SealManual(x, [], random, plaintext, additionalData) == ct;
    assert SealManual(x, dst + random, random, plaintext, additionalData) == (dst + random) + ct;
  }

  /** Automatic Open of nonce || ciphertext is manual Open of the ciphertext under that nonce. */
  lemma AutoOpenSplitsNonce(x: Instance, dst: seq<byte>, nonce: seq<byte>, ciphertext: seq<byte>, additionalData: seq<byte>)
    requires |nonce| == NonceSize
    ensures OpenAuto(x, dst, [], nonce + ciphertext, additionalData) == OpenManual(x, dst, nonce, ciphertext, additionalData)
  {
    assert (nonce + ciphertext)[..NonceSize] == nonce;
    assert (nonce + ciphertext)[NonceSize..] == ciphertext;
  }

  /** Opening what automatic Seal produced, after its `dst`, gives back the plaintext. */
  lemma AutoRoundTrip(x: Instance, dst: seq<byte>, dst': seq<byte>, random: seq<byte>, plaintext: seq<byte>, additionalData: seq<byte>)
    requires GcmLawful(x.crypto)
    requires |random| == NonceSize
    ensures OpenAuto(x, dst', [], SealAuto(x, dst, random, plaintext, additionalData)[|dst|..], additionalData)
      == Ok(dst' + plaintext)
  {
    var ct := SealManual(x, [], random, plaintext, additionalData);
    AutoSealLayout(x, dst, random, plaintext, additionalData);
    assert SealAuto(x, dst, random, plaintext, additionalData)[|dst|..] == random + ct;
    AutoOpenSplitsNonce(x, dst', random, ct, additionalData);
    ManualRoundTrip(x, [], dst', random, plaintext, additionalData);
    assert ct[0..] == ct;
  }
}
