/**
 * Byte sizes of the Kyber-768 parameter set (round 3, k = 3) that the KEM
 * transform works with, and fixed-length byte-string types for its buffers.
 * params.h is not part of this model: the values are those of the Kyber
 * round-3 specification for k = 3, and the secret-key size is defined by the
 * same sum that params.h uses and that the key layout relies on.
 */
module Params {

  type byte = bv8

  /** KYBER_SYMBYTES: size of hashes, seeds and the encrypted message. */
  const SymBytes: nat := 32
  /** KYBER_SSBYTES: size of the shared secret written by the KDF. */
  const SsBytes: nat := 32
  /** KYBER_INDCPA_MSGBYTES: the IND-CPA message is one symmetric block. */
  const IndcpaMsgBytes: nat := SymBytes
  /** KYBER_POLYVECBYTES for k = 3 (3 * 384). */
  const PolyVecBytes: nat := 1152
  const IndcpaPublicKeyBytes: nat := PolyVecBytes + SymBytes
  const IndcpaSecretKeyBytes: nat := PolyVecBytes
  const PublicKeyBytes: nat := IndcpaPublicKeyBytes
  /** indcpa secret key || public key || H(pk) || z */
  const SecretKeyBytes: nat := IndcpaSecretKeyBytes + IndcpaPublicKeyBytes + 2 * SymBytes
  /** compressed polyvec (3 * 320) followed by one compressed polynomial (128). */
  const CiphertextBytes: nat := 960 + 128

  function Zeros(n: nat): (s: seq<byte>)
    ensures |s| == n && forall i :: 0 <= i < n ==> s[i] == 0
  {
    seq(n, _ => 0)
  }

  type Bytes32 = s: seq<byte> | |s| == SymBytes witness Zeros(SymBytes)
  type Bytes64 = s: seq<byte> | |s| == 2 * SymBytes witness Zeros(2 * SymBytes)
  type SharedKey = s: seq<byte> | |s| == SsBytes witness Zeros(SsBytes)
  type PublicKey = s: seq<byte> | |s| == PublicKeyBytes witness Zeros(PublicKeyBytes)
  type CpaSecretKey = s: seq<byte> | |s| == IndcpaSecretKeyBytes witness Zeros(IndcpaSecretKeyBytes)
  type SecretKey = s: seq<byte> | |s| == SecretKeyBytes witness Zeros(SecretKeyBytes)
  type Ciphertext = s: seq<byte> | |s| == CiphertextBytes witness Zeros(CiphertextBytes)
}
