/** The two XAES-256-GCM types: `Manual`, which takes 24-byte nonces from its
    caller, and `Auto`, which wraps a `Manual`, draws its nonces at random and
    carries them in front of the ciphertext. */
module Xaes {
  import opened Bytes
  import opened Wrappers
  import opened Primitives
  import opened Gf128
  import opened Kdf
  import opened Aead

  /** A manual-nonce instance: the block cipher (AES-256 under `key`) and K1,
      a 16-byte array written once, in the constructor. */
  class Manual {
    const crypto: Crypto
    const key: Key
    const k1: array<byte>

    ghost predicate Valid()
      reads this, k1
    {
      k1.Length == BlockSize && k1[..] == SubkeyOf(crypto, key)
    }

    /** The instance as a value, for the specification functions of `Aead`. */
    function Value(): Instance
      reads this, k1
      requires Valid()
    {
      Instance(crypto, key, k1[..])
    }

    /** Construction after the key-length check: K1 starts as zeros, is encrypted in
        place to L = AES_K(0^128), then doubled in place. */
    constructor (key: Key, crypto: Crypto)
      ensures Valid() && this.key == key && this.crypto == crypto && fresh(k1)
    {
      var b := new byte[BlockSize](_ => 0);
      assert b[..] == ZeroBlock;
      assert b[0..BlockSize] == ZeroBlock;
      EncryptBlock(crypto.aes, key, b, 0);
      assert b[..] == [] + crypto.aes(key, ZeroBlock) + [];
      DoubleInPlace(b);
      this.crypto, this.key, k1 := crypto, key, b;
    }

    /** The nonce is the KDF prefix followed by the GCM nonce. */
    function NonceSize(): (n: nat)
      ensures n == PrefixSize + GcmNonceSize
    {
      Aead.NonceSize
    }

    /** A manual-nonce ciphertext grows by the GCM tag alone. */
    function Overhead(): (n: nat)
      ensures n == TagSize
    {
      OverheadWithManualNonces
    }

    /** The message key for the 12-byte prefix `nonce`: the two counter blocks are
        laid out in a 32-byte buffer, each half is XORed with K1, then each half is
        encrypted in place. */
    method DeriveKey(nonce: seq<byte>) returns (k: Key)
      requires Valid()
      requires |nonce| == PrefixSize
      ensures k == Kdf.DeriveKey(crypto.aes, key, k1[..], nonce)
    {
      var layout := [0x00, 1, Label, 0x00] + nonce + [0x00, 2, Label, 0x00] + nonce;
      var buf := new byte[2 * BlockSize](i requires 0 <= i < 2 * BlockSize => layout[i]);
      var k1s: Block := k1[..];
      ghost var b1: Block, b2: Block := KdfBlock(1, nonce), KdfBlock(2, nonce);
      ghost var in1: Block, in2: Block := KdfInput(k1s, 1, nonce), KdfInput(k1s, 2, nonce);
      ghost var out1: Block, out2: Block := crypto.aes(key, in1), crypto.aes(key, in2);
      assert layout == b1 + b2;
      assert buf[..] == b1 + b2;
      ReplaceFirstHalf(b1, b2, in1);
      XorBytes(buf, 0, k1s);
      assert buf[..] == in1 + b2;
      ReplaceSecondHalf(in1, b2, in2);
      XorBytes(buf, BlockSize, k1s);
      assert buf[..] == in1 + in2;
      ReplaceFirstHalf(in1, in2, out1);
      EncryptBlock(crypto.aes, key, buf, 0);
      assert buf[..] == out1 + in2;
      ReplaceSecondHalf(out1, in2, out2);
      EncryptBlock(crypto.aes, key, buf, BlockSize);
      assert buf[..] == out1 + out2;
      k := buf[..];
    }

    /** Seal under a caller nonce, which must be 24 bytes (Go's `Seal` panics otherwise). */
    method Seal(dst: seq<byte>, nonce: seq<byte>, plaintext: seq<byte>, additionalData: seq<byte>) returns (r: seq<byte>)
      requires Valid()
      requires |nonce| == NonceSize()
      ensures r == SealManual(Value(), dst, nonce, plaintext, additionalData)
      ensures GcmLawful(crypto) ==> |r| == |dst| + |plaintext| + Overhead()
    {
      var k := DeriveKey(nonce[..PrefixSize]);
      var n := nonce[PrefixSize..];
      r := dst + crypto.gcmSeal(k, n, plaintext, additionalData);
    }

    /** Open under a caller nonce; a nonce that is not 24 bytes is an error. */
    method Open(dst: seq<byte>, nonce: seq<byte>, ciphertext: seq<byte>, additionalData: seq<byte>)
      returns (r: Result<seq<byte>, Error>)
      requires Valid()
      ensures r == OpenManual(Value(), dst, nonce, ciphertext, additionalData)
      ensures r == Err(BadNonceLength) <==> |nonce| != NonceSize()
    {
      if |nonce| != NonceSize() {
        return Err(BadNonceLength);
      }
      var k := DeriveKey(nonce[..PrefixSize]);
      var n := nonce[PrefixSize..];
      match crypto.gcmOpen(k, n, ciphertext, additionalData)
      case Some(plaintext) => r := Ok(dst + plaintext);
      case None => r := Err(GcmAuthFailed);
    }
  }

  /** Rewriting the first half of a 32-byte buffer in place. */
  lemma ReplaceFirstHalf(a: seq<byte>, b: seq<byte>, x: seq<byte>)
    requires |a| == BlockSize && |b| == BlockSize && |x| == BlockSize
    ensures (a + b)[0..BlockSize] == a
    ensures (a + b)[..0] + x + (a + b)[BlockSize..] == x + b
  {
    assert (a + b)[BlockSize..] == b;
  }

  /** Rewriting the second half of a 32-byte buffer in place. */
  lemma ReplaceSecondHalf(a: seq<byte>, b: seq<byte>, y: seq<byte>)
    requires |a| == BlockSize && |b| == BlockSize && |y| == BlockSize
    ensures (a + b)[BlockSize..BlockSize + BlockSize] == b
    ensures (a + b)[..BlockSize] + y + (a + b)[BlockSize + BlockSize..] == a + y
  {
    assert (a + b)[..BlockSize] == a;
    assert (a + b)[BlockSize + BlockSize..] == [];
  }

  /** `newWithManualNonces`: a key that is not 32 bytes is an error; otherwise a new
      instance whose K1 is the doubling of AES_K(0^128). */
  method NewWithManualNonces(key: seq<byte>, crypto: Crypto) returns (r: Result<Manual, Error>)
    ensures r.Err? <==> |key| != KeySize
    ensures r.Err? ==> r.error == BadKeyLength
    ensures r.Ok? ==> fresh(r.value) && fresh(r.value.k1) && r.value.Valid()
    ensures r.Ok? ==> r.value.key == key && r.value.crypto == crypto
    ensures r.Ok? ==> r.value.k1[..] == Double(crypto.aes(r.value.key, ZeroBlock))
  {
    if |key| != KeySize {
      return Err(BadKeyLength);
    }
    var x := new Manual(key, crypto);
    r := Ok(x);
  }

  /** An automatic-nonce instance: a manual-nonce instance it forwards to. */
  class Auto {
    const manual: Manual

    ghost predicate Valid()
      reads this, manual, manual.k1
    {
      manual.Valid()
    }

    constructor (manual: Manual)
      requires manual.Valid()
      ensures Valid() && this.manual == manual
    {
      this.manual := manual;
    }

    /** Callers pass no nonce: it is drawn at random inside Seal. */
    function NonceSize(): (n: nat)
      ensures n == 0
    {
      0
    }

    /** An automatic-nonce ciphertext grows by the carried nonce and the GCM tag. */
    function Overhead(): (n: nat)
      ensures n == Aead.NonceSize + TagSize
    {
      Aead.Overhead
    }

    /** Seal with a fresh nonce: `random` is the 24 bytes the random source wrote after
        `dst`; the caller's nonce must be empty (Go's `Seal` panics otherwise). */
    method Seal(dst: seq<byte>, nonce: seq<byte>, random: seq<byte>, plaintext: seq<byte>, additionalData: seq<byte>)
      returns (r: seq<byte>)
      requires Valid()
      requires |nonce| == NonceSize()
      requires |random| == Aead.NonceSize
      ensures r == SealAuto(manual.Value(), dst, random, plaintext, additionalData)
      ensures GcmLawful(manual.crypto) ==> |r| == |dst| + |plaintext| + Overhead()
    {
      var grown := dst + random;
      var n := grown[|dst|..];
      r := manual.Seal(grown, n, plaintext, additionalData);
    }

    /** Open nonce || ciphertext; a caller nonce is an error, and so is a ciphertext
        shorter than a nonce. */
    method Open(dst: seq<byte>, nonce: seq<byte>, ciphertext: seq<byte>, additionalData: seq<byte>)
      returns (r: Result<seq<byte>, Error>)
      requires Valid()
      ensures r == OpenAuto(manual.Value(), dst, nonce, ciphertext, additionalData)
      ensures r == Err(BadNonceLength) <==> |nonce| != NonceSize()
    {
      if |nonce| != NonceSize() {
        return Err(BadNonceLength);
      }
      if |ciphertext| < Aead.NonceSize {
        return Err(ErrOpen);
      }
      r := manual.Open(dst, ciphertext[..Aead.NonceSize], ciphertext[Aead.NonceSize..], additionalData);
    }
  }

  /** `New`: the checks and construction of `NewWithManualNonces`, wrapped. */
  method New(key: seq<byte>, crypto: Crypto) returns (r: Result<Auto, Error>)
    ensures r.Err? <==> |key| != KeySize
    ensures r.Err? ==> r.error == BadKeyLength
    ensures r.Ok? ==> fresh(r.value) && r.value.Valid()
    ensures r.Ok? ==> r.value.manual.key == key && r.value.manual.crypto == crypto
  {
    var x := NewWithManualNonces(key, crypto);
    match x
    case Err(e) => r := Err(e);
    case Ok(m) => {
      var a := new Auto(m);
      r := Ok(a);
    }
  }
}
