# XAES-256-GCM in Dafny

A verified model of the Go package `xaes256gcm`. The package implements
XAES-256-GCM, an AEAD with 24-byte nonces built on AES-256-GCM. The model
covers everything the package does around AES and GCM:

- **Construction** (`newWithManualNonces`) checks that the key is 32 bytes.
  It encrypts the zero block to get L. It then doubles L in GF(2^128) in place
  to get the subkey K1. This is the CMAC subkey step of section 6.1 of
  NIST SP 800-38B.
- **Key derivation** (`deriveKey`) lays out the blocks `00 01 'X' 00 || N1`
  and `00 02 'X' 00 || N1` in a 32-byte buffer. It XORs each half with K1 and
  encrypts each half in place. This is a two-block counter-mode KDF in the
  manner of section 4.1 of NIST SP 800-108r1.
- **Manual-nonce Seal and Open** split the 24-byte nonce 12/12. The first 12
  bytes give the message key and the last 12 are the GCM nonce.
- **Automatic-nonce Seal and Open** carry a random 24-byte nonce in front of
  the manual-nonce ciphertext.

Modules:

| file | module | contents |
|---|---|---|
| `wrappers.dfy` | `Wrappers` | `Option` and `Result` |
| `bytes.dfy` | `Bytes` | bytes as `bv8`, XOR of byte strings, in-place XOR, big-endian value, bit strings |
| `primitives.dfy` | `Primitives` | sizes; AES and GCM as values of `Crypto`; the laws expected of GCM (`GcmLawful`); in-place block encryption |
| `gf128.dfy` | `Gf128` | the doubling of L: the in-place loop, its integer meaning and its bit-string meaning |
| `kdf.dfy` | `Kdf` | the message-key derivation as a function, its layout and its domain separation |
| `aead.dfy` | `Aead` | constants, errors, and Seal/Open as functions of an instance's value, with the round trips |
| `xaes.dfy` | `Xaes` | the classes `Manual` (holding K1 as a 16-byte array) and `Auto`, and the constructors `NewWithManualNonces` and `New` |

Bytes are `bv8`. Go's byte shifts, OR, XOR and the multiplication
`msb * 0b10000111` therefore wrap modulo 256 as they do in Go.

AES-256 and GCM are library code. The model takes them as function values
in a `Crypto` record:

- `aes(key, block)` is a 16-byte block;
- `gcmSeal` returns bytes;
- `gcmOpen` returns `Some(plaintext)` or `None`.

The functions of `Kdf` and `Aead` define the behaviour exactly in terms of
those values. Their contracts state prefixes, lengths and error conditions,
and the lemmas beside them state the layouts and the round trips. Each
method of `Xaes` and `Gf128` is proved equal to the function that defines it.
Results about lengths and round trips assume only `GcmLawful`: GCM adds 16
bytes, and GCM Open of a GCM seal returns the plaintext. Results about
distinct keys assume only that AES under a fixed key is injective
(`InjectiveUnder`).

## Model

| member | source | states |
|---|---|---|
| Bytes.XorBytes | XAES-256-GCM.go:139-140 | XORs `k` into the bytes of `b` from `off` on, in place, and leaves every other byte as it was |
| Primitives.EncryptBlock | XAES-256-GCM.go:141-142 | replaces the 16 bytes at `off` with their AES encryption and leaves every other byte as it was |
| Gf128.DoubleInPlace | XAES-256-GCM.go:115-120 | the descending loop with the `msb` carry, then the conditional XOR of 0x87 into the last byte, leaves `Double(L)` in the array |
| Gf128.ShiftLeftInValue | XAES-256-GCM.go:117-119 | the byte-wise shift with carries is arithmetic: value(shifted) + msb * 256^n == 2 * value(L) + carry-in |
| Gf128.ShiftLeft1IsDoubling | XAES-256-GCM.go:115-120 | for 16 bytes, the shift is 2 * L mod 2^128; the carried-out bit is 1 exactly when L >= 2^127; the low bit of the shifted last byte is 0, so no carry enters it |
| Gf128.DoubleIsShiftXor | XAES-256-GCM.go:115-120 | K1 is the shifted L XOR R_128 (`00..00 87`) when the top bit of L was set, and XOR zero otherwise |
| Gf128.DoubleIsGfDouble | XAES-256-GCM.go:113-120 | K1 as a bit string is the SP 800-38B doubling of L: L << 1, XOR R_128 exactly when MSB(L) = 1 |
| Kdf.DeriveKeyLayout | XAES-256-GCM.go:133-143 | the message key is 32 bytes; bytes 0..15 are AES_K((00 01 'X' 00 ++ N1) XOR K1) and bytes 16..31 are AES_K((00 02 'X' 00 ++ N1) XOR K1) |
| Kdf.KdfInputLayout | XAES-256-GCM.go:135-140 | each byte of a block before encryption: the fixed header, the counter and the prefix, each XOR the same byte of K1 |
| Kdf.CountersSeparate | XAES-256-GCM.go:135-140 | for any K1 and any two prefixes, the counter-1 and counter-2 blocks differ in byte 1 |
| Kdf.KdfInputInjective | XAES-256-GCM.go:135-140 | with K1 and the counter fixed, equal blocks before encryption come from equal prefixes |
| Kdf.DerivedKeysDiffer | XAES-256-GCM.go:133-143 | if AES under the key is injective, distinct prefixes give message keys that differ in both halves |
| Kdf.DerivedKeyHalvesDiffer | XAES-256-GCM.go:133-143 | if AES under the key is injective, the first half of a message key never equals the second half of one, for any two prefixes |
| Aead.SealManual | XAES-256-GCM.go:146-155 | keeps `dst` as a prefix; under the GCM laws, its length is len(dst) + len(plaintext) + 16 |
| Aead.OpenManual | XAES-256-GCM.go:157-166 | returns the bad-nonce-length error exactly when the nonce is not 24 bytes; otherwise, with the key derived from the first 12 nonce bytes and the last 12 as GCM nonce, it fails exactly when GCM Open rejects, and succeeds with `dst` followed by GCM's plaintext |
| Aead.SealAuto | XAES-256-GCM.go:55-74 | keeps `dst` as a prefix; the 24 random bytes come right after it; under the GCM laws, its length is len(dst) + len(plaintext) + 40 |
| Aead.OpenAuto | XAES-256-GCM.go:78-89 | the bad-nonce-length error occurs exactly when a nonce is passed; `errOpen` occurs exactly when there is no nonce and the ciphertext is shorter than 24 bytes; on success it keeps `dst` as a prefix |
| Aead.ManualRoundTrip | XAES-256-GCM.go:146-166 | under the GCM laws, manual Open of manual Seal's output, with the same nonce and associated data, gives back the plaintext after any `dst` |
| Aead.AutoSealLayout | XAES-256-GCM.go:60-73 | automatic Seal's output is dst ++ nonce ++ manual Seal of the plaintext under that nonce |
| Aead.AutoOpenSplitsNonce | XAES-256-GCM.go:82-88 | automatic Open of nonce ++ ciphertext is manual Open of the ciphertext under that nonce |
| Aead.AutoRoundTrip | XAES-256-GCM.go:55-89 | under the GCM laws, automatic Open of automatic Seal's output gives back the plaintext |
| Xaes.Manual.constructor | XAES-256-GCM.go:110-121 | encrypts the zero block into a fresh K1 array in place, then doubles it in place, so K1 is `Double(AES_K(0^128))` |
| Xaes.Manual.NonceSize | XAES-256-GCM.go:125-127 | the nonce is the 12-byte KDF prefix plus the 12-byte GCM nonce |
| Xaes.Manual.Overhead | XAES-256-GCM.go:129-131 | the overhead is one GCM tag |
| Xaes.Manual.DeriveKey | XAES-256-GCM.go:133-144 | the buffer code (lay out, XOR each half, encrypt each half in place) returns exactly `Kdf.DeriveKey` of K1 and the prefix |
| Xaes.Manual.Seal | XAES-256-GCM.go:146-155 | equals `Aead.SealManual` of the instance; under the GCM laws, the length is len(dst) + len(plaintext) + Overhead() |
| Xaes.Manual.Open | XAES-256-GCM.go:157-166 | equals `Aead.OpenManual` of the instance; returns the bad-nonce-length error exactly when the nonce is not NonceSize() bytes |
| Xaes.NewWithManualNonces | XAES-256-GCM.go:106-123 | fails, with the bad-key-length error, exactly when the key is not 32 bytes; otherwise returns a fresh valid instance with that key and K1 = `Double(AES_K(0^128))` |
| Xaes.Auto.constructor | XAES-256-GCM.go:44 | wraps a valid manual-nonce instance |
| Xaes.Auto.NonceSize | XAES-256-GCM.go:47-49 | callers pass no nonce |
| Xaes.Auto.Overhead | XAES-256-GCM.go:51-53 | the overhead is the carried 24-byte nonce plus one GCM tag |
| Xaes.Auto.Seal | XAES-256-GCM.go:55-74 | equals `Aead.SealAuto` of the wrapped instance and the random bytes; under the GCM laws, the length is len(dst) + len(plaintext) + Overhead() |
| Xaes.Auto.Open | XAES-256-GCM.go:78-89 | equals `Aead.OpenAuto` of the wrapped instance; returns the bad-nonce-length error exactly when a nonce is passed |
| Xaes.New | XAES-256-GCM.go:38-45 | fails, with the bad-key-length error, exactly when the key is not 32 bytes; otherwise returns a fresh valid automatic-nonce instance over that key |

Two behaviours of the code, which the model keeps:

- Automatic Open with a non-empty nonce returns its own bad-nonce-length
  error (XAES-256-GCM.go:79-80), not the message-authentication error
  `errOpen`. The model keeps `BadNonceLength`, `ErrOpen` and GCM's own
  failure (`GcmAuthFailed`) distinct.
- On failure, Open returns no plaintext (XAES-256-GCM.go:159, 165). The code
  does not clear the output buffer, so the model claims nothing about it.

## Left out

- AES-256 and GCM internals (`aes.NewCipher`, `Encrypt`, `cipher.NewGCM`, tag computation and checking) are library code. They are the function values of `Crypto`. GCM's length and open-after-seal laws are the hypothesis `GcmLawful`, not a proof.
- The errors that `aes.NewCipher` and `cipher.NewGCM` return are ignored by the code, which has already checked the key length. They are not modelled.
- GCM's panic on a plaintext longer than it accepts is inside library code and is not modelled.
- `crypto/rand.Read` and its panic on failure (XAES-256-GCM.go:67-69) are I/O. The 24 random bytes are the `random` parameter of `Xaes.Auto.Seal`.
- `subtle.XORBytes` runs in constant time. Timing is not expressible, so it is modelled as plain bytewise XOR.
- Slice capacity and aliasing in automatic Seal (XAES-256-GCM.go:60-66) are not modelled. The nonce is written into spare capacity of `dst`; the model builds the result by sequence concatenation.
- The exported `NewWithManualNonces` (XAES-256-GCM.go:102-104) only returns `newWithManualNonces` as a `cipher.AEAD`. Both are `Xaes.NewWithManualNonces`.
- Error values are constructors of `Aead.Error`, not Go error strings.
- Probability and security claims (IND-CCA, keys differing with overwhelming probability) need a probability model. The key-separation lemmas instead assume AES under a fixed key is injective, which holds for a block cipher.
- Xaes.Manual.Seal: a nonce that is not 24 bytes makes the code panic, so the model makes it a precondition.
- Xaes.Auto.Seal: a non-empty nonce makes the code panic, so the model makes it a precondition.
- Xaes.Manual.Seal: the ciphertext length is promised only under `GcmLawful`, because the length comes from GCM.
- Xaes.Auto.Seal: the ciphertext length is promised only under `GcmLawful`, because the length comes from GCM.
- Concurrent use of an instance is not modelled. Nothing changes after construction: K1 is written only in the constructor.
