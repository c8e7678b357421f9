/**
 * The KEM transform of kem.c as functions on byte strings: the CCA-secure
 * Kyber KEM (the Fujisaki-Okamoto transform with implicit rejection of
 * the CRYSTALS-Kyber round-3 specification, Algorithms 7 to 9) and the
 * custom-secret variants. The methods of module Kem, which write the C
 * buffers in place, are proved equal to these functions.
 */
module KemSpec {
  import opened Params
  import opened Primitives

  /*** Secret-key layout: indcpa sk || pk || H(pk) || z ***/

  const PkOffset: nat := IndcpaSecretKeyBytes
  const PkHashOffset: nat := SecretKeyBytes - 2 * SymBytes
  const SeedOffset: nat := SecretKeyBytes - SymBytes

  /**
   * The bytes memcpy'd after the IND-CPA key land right before H(pk). This
   * holds by the definition of `Params.SecretKeyBytes` as the sum of the
   * four fields, which is why the body is empty.
   */
  lemma LayoutIsContiguous()
    ensures SecretKeyBytes == IndcpaSecretKeyBytes + PublicKeyBytes + 2 * SymBytes
    ensures PkOffset + IndcpaPublicKeyBytes == PkHashOffset
    ensures PkHashOffset + SymBytes == SeedOffset && SeedOffset + SymBytes == SecretKeyBytes
  {}

  function SkIndcpa(sk: SecretKey): CpaSecretKey { sk[..PkOffset] }
  function SkPublicKey(sk: SecretKey): PublicKey { sk[PkOffset..PkHashOffset] }
  function SkPublicKeyHash(sk: SecretKey): Bytes32 { sk[PkHashOffset..SeedOffset] }
  function SkRejectionSeed(sk: SecretKey): Bytes32 { sk[SeedOffset..] }

  function AssembleSecretKey(csk: CpaSecretKey, pk: PublicKey, pkHash: Bytes32, z: Bytes32): SecretKey {
    csk + pk + pkHash + z
  }

  /** The four fields read back from an assembled key are the ones put in. */
  lemma SecretKeyFields(csk: CpaSecretKey, pk: PublicKey, pkHash: Bytes32, z: Bytes32)
    ensures SkIndcpa(AssembleSecretKey(csk, pk, pkHash, z)) == csk
    ensures SkPublicKey(AssembleSecretKey(csk, pk, pkHash, z)) == pk
    ensures SkPublicKeyHash(AssembleSecretKey(csk, pk, pkHash, z)) == pkHash
    ensures SkRejectionSeed(AssembleSecretKey(csk, pk, pkHash, z)) == z
  {}

  /** Every secret key is the assembly of its four fields. */
  lemma SecretKeyFromFields(sk: SecretKey)
    ensures AssembleSecretKey(SkIndcpa(sk), SkPublicKey(sk), SkPublicKeyHash(sk), SkRejectionSeed(sk)) == sk
  {}

  /*** Key generation ***/

  datatype KeyPair = KeyPair(pk: PublicKey, sk: SecretKey)

  /** A key pair whose secret key embeds `pk` and its hash, as decapsulation expects. */
  ghost predicate WellFormed(p: Primitives, kp: KeyPair) {
    SkPublicKey(kp.sk) == kp.pk && SkPublicKeyHash(kp.sk) == p.hashH(kp.pk)
  }

  /** crypto_kem_keypair: `coins` is indcpa_keypair's draw, `z` the randombytes draw. */
  function KeyGen(p: Primitives, coins: seq<byte>, z: Bytes32): (kp: KeyPair)
    ensures kp.pk == p.indcpaKeypair(coins).pk && SkIndcpa(kp.sk) == p.indcpaKeypair(coins).sk
    ensures WellFormed(p, kp) && SkRejectionSeed(kp.sk) == z
  {
    var cpa := p.indcpaKeypair(coins);
    SecretKeyFields(cpa.sk, cpa.pk, p.hashH(cpa.pk), z);
    KeyPair(cpa.pk, AssembleSecretKey(cpa.sk, cpa.pk, p.hashH(cpa.pk), z))
  }

  /** crypto_kem_keypair_based_on_input: z is the first 32 bytes of key_input. */
  function KeyGenBasedOnInput(p: Primitives, keyInput: seq<byte>): (kp: KeyPair)
    requires SymBytes <= |keyInput|
    ensures kp.pk == p.indcpaKeypairBasedOnInput(keyInput).pk
    ensures SkIndcpa(kp.sk) == p.indcpaKeypairBasedOnInput(keyInput).sk
    ensures WellFormed(p, kp) && SkRejectionSeed(kp.sk) == keyInput[..SymBytes]
  {
    var cpa := p.indcpaKeypairBasedOnInput(keyInput);
    var z: Bytes32 := keyInput[..SymBytes];
    SecretKeyFields(cpa.sk, cpa.pk, p.hashH(cpa.pk), z);
    KeyPair(cpa.pk, AssembleSecretKey(cpa.sk, cpa.pk, p.hashH(cpa.pk), z))
  }

  /*** Encapsulation and decapsulation ***/

  datatype Encapsulation = Encapsulation(ct: Ciphertext, ss: seq<byte>)

  /** (K̄, coins) = G(m || H(pk)): pre-key in the first half, coins in the second. */
  function DeriveKeyAndCoins(p: Primitives, m: Bytes32, pkHash: Bytes32): Bytes64 {
    p.hashG(m + pkHash)
  }

  function PreKey(kr: Bytes64): Bytes32 { kr[..SymBytes] }
  function Coins(kr: Bytes64): Bytes32 { kr[SymBytes..] }

  /** crypto_kem_enc with `r` as the randombytes draw: m = H(r), ct = Enc(pk, m; coins), K = KDF(K̄ || H(ct)). */
  function Encaps(p: Primitives, pk: PublicKey, r: Bytes32): Encapsulation {
    var m := p.hashH(r);
    var kr := DeriveKeyAndCoins(p, m, p.hashH(pk));
    var ct := p.indcpaEnc(m, pk, Coins(kr));
    Encapsulation(ct, p.kdf(PreKey(kr) + p.hashH(ct)))
  }

  /** The message that decapsulation recovers from `ct`. */
  function Decrypted(p: Primitives, ct: Ciphertext, sk: SecretKey): Bytes32 {
    p.indcpaDec(ct, SkIndcpa(sk))
  }

  /** The re-encryption check: `ct` is what encrypting the recovered message yields. */
  predicate Accepts(p: Primitives, ct: Ciphertext, sk: SecretKey) {
    var m := Decrypted(p, ct, sk);
    p.indcpaEnc(m, SkPublicKey(sk), Coins(DeriveKeyAndCoins(p, m, SkPublicKeyHash(sk)))) == ct
  }

  /**
   * crypto_kem_dec, as Algorithm 9 states it with a branch: the re-derived
   * pre-key on acceptance, the stored seed z on rejection, followed in both
   * cases by H(ct) under the KDF.
   */
  function Decaps(p: Primitives, ct: Ciphertext, sk: SecretKey): SharedKey {
    var kr := DeriveKeyAndCoins(p, Decrypted(p, ct, sk), SkPublicKeyHash(sk));
    if Accepts(p, ct, sk) then p.kdf(PreKey(kr) + p.hashH(ct))
    else p.kdf(SkRejectionSeed(sk) + p.hashH(ct))
  }

  /** CCA correctness: decapsulating an honest encapsulation under a well-formed key yields its secret. */
  lemma EncapsDecapsRoundTrip(p: Primitives, kp: KeyPair, r: Bytes32)
    requires WellFormed(p, kp)
    requires CpaInverts(p, kp.pk, SkIndcpa(kp.sk))
    ensures Accepts(p, Encaps(p, kp.pk, r).ct, kp.sk)
    ensures Decaps(p, Encaps(p, kp.pk, r).ct, kp.sk) == Encaps(p, kp.pk, r).ss
  {}

  /** The round trip for keys from crypto_kem_keypair. */
  lemma KeyGenRoundTrip(p: Primitives, coins: seq<byte>, z: Bytes32, r: Bytes32)
    requires CpaInverts(p, p.indcpaKeypair(coins).pk, p.indcpaKeypair(coins).sk)
    ensures Decaps(p, Encaps(p, KeyGen(p, coins, z).pk, r).ct, KeyGen(p, coins, z).sk)
         == Encaps(p, KeyGen(p, coins, z).pk, r).ss
  {
    EncapsDecapsRoundTrip(p, KeyGen(p, coins, z), r);
  }

  /** The round trip for keys from crypto_kem_keypair_based_on_input. */
  lemma KeyGenBasedOnInputRoundTrip(p: Primitives, keyInput: seq<byte>, r: Bytes32)
    requires SymBytes <= |keyInput|
    requires CpaInverts(p, p.indcpaKeypairBasedOnInput(keyInput).pk, p.indcpaKeypairBasedOnInput(keyInput).sk)
    ensures Decaps(p, Encaps(p, KeyGenBasedOnInput(p, keyInput).pk, r).ct, KeyGenBasedOnInput(p, keyInput).sk)
         == Encaps(p, KeyGenBasedOnInput(p, keyInput).pk, r).ss
  {
    EncapsDecapsRoundTrip(p, KeyGenBasedOnInput(p, keyInput), r);
  }

  /**
   * Implicit rejection: the secret of a rejected ciphertext is fixed by z and
   * the ciphertext alone, whatever the rest of the key decrypts it to.
   */
  lemma RejectionDependsOnlyOnSeed(p: Primitives, ct: Ciphertext, sk1: SecretKey, sk2: SecretKey)
    requires !Accepts(p, ct, sk1) && !Accepts(p, ct, sk2)
    requires SkRejectionSeed(sk1) == SkRejectionSeed(sk2)
    ensures Decaps(p, ct, sk1) == Decaps(p, ct, sk2)
  {}

  /** The secret of an accepted ciphertext does not depend on z. */
  lemma AcceptanceIgnoresSeed(p: Primitives, ct: Ciphertext, sk1: SecretKey, sk2: SecretKey)
    requires sk1[..SeedOffset] == sk2[..SeedOffset]
    requires Accepts(p, ct, sk1)
    ensures Accepts(p, ct, sk2)
    ensures Decaps(p, ct, sk1) == Decaps(p, ct, sk2)
  {
    assert SkIndcpa(sk1) == sk1[..SeedOffset][..PkOffset];
    assert SkIndcpa(sk2) == sk2[..SeedOffset][..PkOffset];
    assert SkPublicKey(sk1) == sk1[..SeedOffset][PkOffset..PkHashOffset];
    assert SkPublicKey(sk2) == sk2[..SeedOffset][PkOffset..PkHashOffset];
    assert SkPublicKeyHash(sk1) == sk1[..SeedOffset][PkHashOffset..];
    assert SkPublicKeyHash(sk2) == sk2[..SeedOffset][PkHashOffset..];
  }

  /*** Custom-secret CPA variants ***/

  /**
   * crypto_kem_enc_custom_secret_CPA: the caller's 32 bytes are encrypted as
   * they are, under `coins` (read from an uninitialised buffer in the C), and
   * the 64-byte message buffer is returned as the secret; its upper half is
   * the uninitialised `upper`.
   */
  function EncapsCustomCpa(p: Primitives, input: seq<byte>, pk: PublicKey, coins: Bytes32, upper: Bytes32): Encapsulation
    requires SymBytes <= |input|
  {
    Encapsulation(p.indcpaEnc(input[..SymBytes], pk, coins), input[..SymBytes] + upper)
  }

  /**
   * The number of bytes the custom CPA functions copy into `ss`: all of
   * their 64-byte `buf`.
   */
  const CpaSecretCopyLength: nat := 2 * SymBytes

  /** crypto_kem_dec_custom_secret_CPA: the decrypted message, unchecked, followed by `upper`. */
  function DecapsCustomCpa(p: Primitives, ct: Ciphertext, sk: SecretKey, upper: Bytes32): seq<byte> {
    Decrypted(p, ct, sk) + upper
  }

  /** The CPA pair carries the caller's 32 bytes through, whatever coins were used. */
  lemma CustomCpaRoundTrip(p: Primitives, kp: KeyPair, input: seq<byte>, coins: Bytes32, upperE: Bytes32, upperD: Bytes32)
    requires SymBytes <= |input|
    requires CpaInverts(p, kp.pk, SkIndcpa(kp.sk))
    ensures DecapsCustomCpa(p, EncapsCustomCpa(p, input, kp.pk, coins, upperE).ct, kp.sk, upperD)[..SymBytes] == input[..SymBytes]
    ensures EncapsCustomCpa(p, input, kp.pk, coins, upperE).ss[..SymBytes] == input[..SymBytes]
  {}
}
