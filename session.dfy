/**
 * Whole KEM sessions driven through the in-place functions of module Kem:
 * key generation, encapsulation under the public key, decapsulation under
 * the secret key, each into freshly allocated caller buffers. They hold for
 * every choice of primitives whose IND-CPA decryption inverts encryption
 * for the generated key pair.
 */
module KemSession {
  import opened Params
  import opened Primitives
  import opened KemSpec
  import opened Kem

  /** keypair, enc, dec: both sides end up with the same shared secret. */
  method StandardSession(p: Primitives, coins: seq<byte>, z: Bytes32, r: Bytes32)
    returns (sharedE: seq<byte>, sharedD: seq<byte>)
    requires CpaInverts(p, p.indcpaKeypair(coins).pk, p.indcpaKeypair(coins).sk)
    ensures |sharedE| == SsBytes && sharedE == sharedD
  {
    var pk := new byte[PublicKeyBytes];
    var sk := new byte[SecretKeyBytes];
    var ct := new byte[CiphertextBytes];
    var ssE := new byte[SsBytes];
    var ssD := new byte[SsBytes];
    var _ := KemKeypair(p, coins, z, pk, sk);
    var _ := KemEnc(p, r, ct, ssE, pk[..]);
    var _ := KemDec(p, ssD, ct[..], sk[..]);
    KeyGenRoundTrip(p, coins, z, r);
    sharedE, sharedD := ssE[..], ssD[..];
  }

  /**
   * keypair, enc_custom_secret_CCA, dec_custom_secret_CCA, the CCA sequence
   * of the demo driver: both sides agree, and the secret is the one
   * crypto_kem_enc derives from the draw `input[..32]`.
   */
  method CustomCcaSession(p: Primitives, coins: seq<byte>, z: Bytes32, input: seq<byte>)
    returns (sharedE: seq<byte>, sharedD: seq<byte>)
    requires SymBytes <= |input|
    requires CpaInverts(p, p.indcpaKeypair(coins).pk, p.indcpaKeypair(coins).sk)
    ensures |sharedE| == SsBytes && sharedE == sharedD
    ensures sharedE == Encaps(p, KeyGen(p, coins, z).pk, input[..SymBytes]).ss
  {
    var pk := new byte[PublicKeyBytes];
    var sk := new byte[SecretKeyBytes];
    var ct := new byte[CiphertextBytes];
    var ssE := new byte[SsBytes];
    var ssD := new byte[SsBytes];
    var _ := KemKeypair(p, coins, z, pk, sk);
    var _ := KemEncCustomSecretCca(p, input, ct, ssE, pk[..]);
    var _ := KemDecCustomSecretCca(p, ssD, ct[..], sk[..]);
    KeyGenRoundTrip(p, coins, z, input[..SymBytes]);
    sharedE, sharedD := ssE[..], ssD[..];
  }

  /**
   * keypair_based_on_input, enc_custom_secret_CCA, dec_custom_secret_CCA:
   * the seeded key pair and the caller-chosen secret still agree, and the
   * secret is the one crypto_kem_enc derives from the draw `input[..32]`.
   */
  method SeededCustomCcaSession(p: Primitives, keyInput: seq<byte>, input: seq<byte>)
    returns (sharedE: seq<byte>, sharedD: seq<byte>)
    requires SymBytes <= |keyInput| && SymBytes <= |input|
    requires CpaInverts(p, p.indcpaKeypairBasedOnInput(keyInput).pk, p.indcpaKeypairBasedOnInput(keyInput).sk)
    ensures |sharedE| == SsBytes && sharedE == sharedD
    ensures sharedE == Encaps(p, KeyGenBasedOnInput(p, keyInput).pk, input[..SymBytes]).ss
  {
    var pk := new byte[PublicKeyBytes];
    var sk := new byte[SecretKeyBytes];
    var ct := new byte[CiphertextBytes];
    var ssE := new byte[SsBytes];
    var ssD := new byte[SsBytes];
    var _ := KemKeypairBasedOnInput(p, keyInput, pk, sk);
    var _ := KemEncCustomSecretCca(p, input, ct, ssE, pk[..]);
    var _ := KemDecCustomSecretCca(p, ssD, ct[..], sk[..]);
    KeyGenBasedOnInputRoundTrip(p, keyInput, input[..SymBytes]);
    sharedE, sharedD := ssE[..], ssD[..];
  }

  /*** The custom CPA sequence ***/

  /** OQS_KEM_kyber_768_length_shared_secret: the size of the demo driver's two secret buffers. */
  const DriverSharedSecretLength: nat := SsBytes

  /**
   * The demo driver passes its 32-byte secret buffers to the custom CPA
   * functions, which copy 64 bytes into them: no such buffer meets their
   * requirement, and the secrets `EncapsCustomCpa` and `DecapsCustomCpa`
   * specify are SymBytes longer than the buffer, so each copy runs 32 bytes
   * past its end.
   */
  lemma DriverCpaBuffersOverrun(
    ss: array<byte>, p: Primitives, input: seq<byte>, pk: PublicKey, coins: Bytes32, upper: Bytes32,
    ct: Ciphertext, sk: SecretKey)
    requires ss.Length == DriverSharedSecretLength
    requires SymBytes <= |input|
    ensures ss.Length != CpaSecretCopyLength
    ensures |EncapsCustomCpa(p, input, pk, coins, upper).ss| == ss.Length + SymBytes
    ensures |DecapsCustomCpa(p, ct, sk, upper)| == ss.Length + SymBytes
  {}

  /**
   * The demo driver's CPA sequence, keypair, enc_custom_secret_CPA,
   * dec_custom_secret_CPA, with its secret buffers enlarged to the 64 bytes
   * the CPA functions write: both sides hold the caller's 32 bytes at the
   * start.
   */
  method CustomCpaSession(p: Primitives, coins: seq<byte>, z: Bytes32, input: seq<byte>,
                          stackBufE: Bytes64, stackKrE: Bytes64, stackBufD: Bytes64)
    returns (sharedE: seq<byte>, sharedD: seq<byte>)
    requires SymBytes <= |input|
    requires CpaInverts(p, p.indcpaKeypair(coins).pk, p.indcpaKeypair(coins).sk)
    ensures |sharedE| == |sharedD| == CpaSecretCopyLength
    ensures sharedE[..SymBytes] == input[..SymBytes] && sharedD[..SymBytes] == input[..SymBytes]
  {
    var pk := new byte[PublicKeyBytes];
    var sk := new byte[SecretKeyBytes];
    var ct := new byte[CiphertextBytes];
    var ssE := new byte[CpaSecretCopyLength];
    var ssD := new byte[CpaSecretCopyLength];
    var _ := KemKeypair(p, coins, z, pk, sk);
    var _ := KemEncCustomSecretCpa(p, input, ct, ssE, pk[..], stackBufE, stackKrE);
    var _ := KemDecCustomSecretCpa(p, ssD, ct[..], sk[..], stackBufD);
    CustomCpaRoundTrip(p, KeyGen(p, coins, z), input, stackKrE[SymBytes..], stackBufE[SymBytes..], stackBufD[SymBytes..]);
    sharedE, sharedD := ssE[..], ssD[..];
  }
}
