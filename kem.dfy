/**
 * The KEM functions of kem.c (the AVX2 build of Kyber-768), written the way
 * the C writes them: into the caller's output buffers and into local
 * 64-byte buffers `buf` and `kr`, one primitive call at a time. Each is
 * proved to produce what the corresponding function of KemSpec specifies.
 *
 * Read-only inputs (pk, ct, sk, input_message, key_input) are passed as
 * values; randombytes draws and the contents of uninitialised stack buffers
 * that the C reads are parameters.
 */
module Kem {
  import opened Params
  import opened Primitives
  import opened ConstantTime
  import opened KemSpec

  /** The secret key written by both key-generation functions, read back field by field. */
  lemma SecretKeyWritten(sk: seq<byte>, csk: CpaSecretKey, pk: PublicKey, pkHash: Bytes32, z: Bytes32)
    requires |sk| == SecretKeyBytes
    requires sk[..PkOffset] == csk && sk[PkOffset..PkHashOffset] == pk
    requires sk[PkHashOffset..SeedOffset] == pkHash && sk[SeedOffset..] == z
    ensures sk == AssembleSecretKey(csk, pk, pkHash, z)
  {
    SecretKeyFromFields(sk);
  }

  /** crypto_kem_keypair: pk and sk = indcpa sk || pk || H(pk) || z; always returns 0. */
  method KemKeypair(p: Primitives, coins: seq<byte>, z: Bytes32, pk: array<byte>, sk: array<byte>) returns (status: int)
    requires pk.Length == PublicKeyBytes && sk.Length == SecretKeyBytes && pk != sk
    modifies pk, sk
    ensures status == 0
    ensures pk[..] == KeyGen(p, coins, z).pk && sk[..] == KeyGen(p, coins, z).sk
  {
    IndcpaKeypair(p, coins, pk, sk);
    CopyBytes(sk, IndcpaSecretKeyBytes, pk[..]);
    HashH(p, sk, SecretKeyBytes - 2 * SymBytes, pk[..]);
    // z: what a rejected ciphertext is hashed with instead of the pre-key
    CopyBytes(sk, SecretKeyBytes - SymBytes, z);
    var cpa := p.indcpaKeypair(coins);
    SecretKeyWritten(sk[..], cpa.sk, cpa.pk, p.hashH(cpa.pk), z);
    return 0;
  }

  /**
   * crypto_kem_keypair_based_on_input: the same layout, with the IND-CPA pair
   * derived from key_input and z copied from its first 32 bytes instead of
   * drawn; always returns 0.
   */
  method KemKeypairBasedOnInput(p: Primitives, keyInput: seq<byte>, pk: array<byte>, sk: array<byte>) returns (status: int)
    requires SymBytes <= |keyInput|
    requires pk.Length == PublicKeyBytes && sk.Length == SecretKeyBytes && pk != sk
    modifies pk, sk
    ensures status == 0
    ensures pk[..] == KeyGenBasedOnInput(p, keyInput).pk && sk[..] == KeyGenBasedOnInput(p, keyInput).sk
  {
    IndcpaKeypairBasedOnInput(p, keyInput, pk, sk);
    CopyBytes(sk, IndcpaSecretKeyBytes, pk[..]);
    HashH(p, sk, SecretKeyBytes - 2 * SymBytes, pk[..]);
    var hashOfYX := new byte[2 * SymBytes];
    for counter := 0 to 32
      modifies hashOfYX
      invariant hashOfYX[..counter] == keyInput[..counter]
    {
      hashOfYX[counter] := keyInput[counter];
    }
    CopyBytes(sk, SecretKeyBytes - SymBytes, hashOfYX[..SymBytes]);
    var cpa := p.indcpaKeypairBasedOnInput(keyInput);
    SecretKeyWritten(sk[..], cpa.sk, cpa.pk, p.hashH(cpa.pk), keyInput[..SymBytes]);
    return 0;
  }

  /** crypto_kem_enc with `r` as the randombytes draw; always returns 0. */
  method KemEnc(p: Primitives, r: Bytes32, ct: array<byte>, ss: array<byte>, pk: PublicKey) returns (status: int)
    requires ct.Length == CiphertextBytes && ss.Length == SsBytes && ct != ss
    modifies ct, ss
    ensures status == 0
    ensures ct[..] == Encaps(p, pk, r).ct && ss[..] == Encaps(p, pk, r).ss
  {
    var buf := new byte[2 * SymBytes];
    var kr := new byte[2 * SymBytes];  // pre-key half, then coins half
    CopyBytes(buf, 0, r);
    // the message is H(r), never r itself
    HashH(p, buf, 0, buf[..SymBytes]);
    ghost var m := p.hashH(r);
    // bind the message to H(pk) before deriving pre-key and coins
    HashH(p, buf, SymBytes, pk);
    assert buf[..] == m + p.hashH(pk) by {
      assert buf[..] == buf[..SymBytes] + buf[SymBytes..];
    }
    HashG(p, kr, buf[..]);
    IndcpaEnc(p, ct, buf[..SymBytes], pk, kr[SymBytes..]);
    ghost var preKey := kr[..SymBytes];
    // the coins half now holds H(ct)
    HashH(p, kr, SymBytes, ct[..]);
    assert kr[..] == preKey + p.hashH(ct[..]) by {
      assert kr[..] == kr[..SymBytes] + kr[SymBytes..];
    }
    Kdf(p, ss, kr[..]);
    return 0;
  }

  /**
   * crypto_kem_enc_custom_secret_CPA: input_message[0..32) is encrypted
   * directly, under coins read from the uninitialised upper half of `kr`
   * (`stackKr`), and the whole 64-byte `buf`, whose upper half is the
   * uninitialised `stackBuf`, is copied to ss; always returns 0.
   */
  method KemEncCustomSecretCpa(p: Primitives, input: seq<byte>, ct: array<byte>, ss: array<byte>, pk: PublicKey,
                               stackBuf: Bytes64, stackKr: Bytes64) returns (status: int)
    requires SymBytes <= |input|
    requires ct.Length == CiphertextBytes && ss.Length == CpaSecretCopyLength && ct != ss
    modifies ct, ss
    ensures status == 0
    ensures ct[..] == EncapsCustomCpa(p, input, pk, stackKr[SymBytes..], stackBuf[SymBytes..]).ct
    ensures ss[..] == EncapsCustomCpa(p, input, pk, stackKr[SymBytes..], stackBuf[SymBytes..]).ss
  {
    var buf := new byte[2 * SymBytes](i requires 0 <= i < 2 * SymBytes => stackBuf[i]);
    var kr := new byte[2 * SymBytes](i requires 0 <= i < 2 * SymBytes => stackKr[i]);
    for fillBuf := 0 to 32
      modifies buf
      invariant buf[..fillBuf] == input[..fillBuf]
      invariant buf[SymBytes..] == stackBuf[SymBytes..]
    {
      buf[fillBuf] := input[fillBuf];
    }
    assert buf[..SymBytes] == input[..SymBytes];
    assert kr[SymBytes..] == stackKr[SymBytes..];
    // the coins are the uninitialised upper half of kr
    IndcpaEnc(p, ct, buf[..SymBytes], pk, kr[SymBytes..]);
    CopyBytes(ss, 0, buf[..]);
    assert buf[..] == buf[..SymBytes] + buf[SymBytes..];
    return 0;
  }

  /**
   * crypto_kem_enc_custom_secret_CCA: crypto_kem_enc with the random draw
   * replaced by input_message[0..32); always returns 0.
   */
  method KemEncCustomSecretCca(p: Primitives, input: seq<byte>, ct: array<byte>, ss: array<byte>, pk: PublicKey) returns (status: int)
    requires SymBytes <= |input|
    requires ct.Length == CiphertextBytes && ss.Length == SsBytes && ct != ss
    modifies ct, ss
    ensures status == 0
    ensures ct[..] == Encaps(p, pk, input[..SymBytes]).ct && ss[..] == Encaps(p, pk, input[..SymBytes]).ss
  {
    var buf := new byte[2 * SymBytes];
    var kr := new byte[2 * SymBytes];
    for fillBuf := 0 to 32
      modifies buf
      invariant buf[..fillBuf] == input[..fillBuf]
    {
      buf[fillBuf] := input[fillBuf];
    }
    assert buf[..SymBytes] == input[..SymBytes];
    // the message is H(input), never the caller's bytes themselves
    HashH(p, buf, 0, buf[..SymBytes]);
    ghost var m := p.hashH(input[..SymBytes]);
    // bind the message to H(pk) before deriving pre-key and coins
    HashH(p, buf, SymBytes, pk);
    assert buf[..] == m + p.hashH(pk) by {
      assert buf[..] == buf[..SymBytes] + buf[SymBytes..];
    }
    HashG(p, kr, buf[..]);
    IndcpaEnc(p, ct, buf[..SymBytes], pk, kr[SymBytes..]);
    ghost var preKey := kr[..SymBytes];
    // the coins half now holds H(ct)
    HashH(p, kr, SymBytes, ct[..]);
    assert kr[..] == preKey + p.hashH(ct[..]) by {
      assert kr[..] == kr[..SymBytes] + kr[SymBytes..];
    }
    Kdf(p, ss, kr[..]);
    return 0;
  }

  /**
   * crypto_kem_dec: re-encrypts the decrypted message, compares with verify,
   * and cmov's z over the pre-key on a mismatch; the result is Algorithm 9's
   * branch, and the status is 0 on both paths.
   */
  method KemDec(p: Primitives, ss: array<byte>, ct: Ciphertext, sk: SecretKey) returns (status: int)
    requires ss.Length == SsBytes
    modifies ss
    ensures status == 0
    ensures ss[..] == Decaps(p, ct, sk)
  {
    var buf := new byte[2 * SymBytes];
    var kr := new byte[2 * SymBytes];  // pre-key half, then coins half
    var cmp := new byte[CiphertextBytes];
    var pk: PublicKey := sk[IndcpaSecretKeyBytes..IndcpaSecretKeyBytes + IndcpaPublicKeyBytes];
    IndcpaDec(p, buf, ct, sk);
    ghost var m := Decrypted(p, ct, sk);
    // bind the message to H(pk) before deriving pre-key and coins
    CopyBytes(buf, SymBytes, sk[SecretKeyBytes - 2 * SymBytes..SecretKeyBytes - SymBytes]);
    assert buf[..] == m + SkPublicKeyHash(sk) by {
      assert buf[..] == buf[..SymBytes] + buf[SymBytes..];
    }
    HashG(p, kr, buf[..]);
    ghost var derived := DeriveKeyAndCoins(p, m, SkPublicKeyHash(sk));
    IndcpaEnc(p, cmp, buf[..SymBytes], pk, kr[SymBytes..]);
    var fail := Verify(ct, cmp[..], CiphertextBytes);
    assert fail == 0 <==> Accepts(p, ct, sk) by {
      assert ct[..CiphertextBytes] == ct && cmp[..][..CiphertextBytes] == cmp[..];
    }
    // the coins half now holds H(ct)
    HashH(p, kr, SymBytes, ct);
    // on a mismatch, z takes the place of the pre-key
    Cmov(kr, sk[SecretKeyBytes - SymBytes..], SymBytes, fail as byte);
    // the second half of kr is H(ct) on both paths
    assert kr[SymBytes..] == p.hashH(ct);
    assert kr[..] == (if Accepts(p, ct, sk) then PreKey(derived) else SkRejectionSeed(sk)) + p.hashH(ct) by {
      assert kr[..] == kr[..SymBytes] + kr[SymBytes..];
    }
    Kdf(p, ss, kr[..]);
    return 0;
  }

  /**
   * crypto_kem_dec_custom_secret_CPA: the decrypted message is copied to ss
   * with no re-encryption check, followed by the uninitialised upper half of
   * `buf` (`stackBuf`); always returns 0.
   */
  method KemDecCustomSecretCpa(p: Primitives, ss: array<byte>, ct: Ciphertext, sk: SecretKey, stackBuf: Bytes64) returns (status: int)
    requires ss.Length == CpaSecretCopyLength
    modifies ss
    ensures status == 0
    ensures ss[..] == DecapsCustomCpa(p, ct, sk, stackBuf[SymBytes..])
  {
    var buf := new byte[2 * SymBytes](i requires 0 <= i < 2 * SymBytes => stackBuf[i]);
    IndcpaDec(p, buf, ct, sk);
    CopyBytes(ss, 0, buf[..]);
    assert buf[..] == buf[..SymBytes] + buf[SymBytes..];
    return 0;
  }

  /**
   * crypto_kem_dec_custom_secret_CCA: the same statements as crypto_kem_dec,
   * so the same secret and status for every ciphertext and secret key.
   */
  method KemDecCustomSecretCca(p: Primitives, ss: array<byte>, ct: Ciphertext, sk: SecretKey) returns (status: int)
    requires ss.Length == SsBytes
    modifies ss
    ensures status == 0
    ensures ss[..] == Decaps(p, ct, sk)
  {
    var buf := new byte[2 * SymBytes];
    var kr := new byte[2 * SymBytes];  // pre-key half, then coins half
    var cmp := new byte[CiphertextBytes];
    var pk: PublicKey := sk[IndcpaSecretKeyBytes..IndcpaSecretKeyBytes + IndcpaPublicKeyBytes];
    IndcpaDec(p, buf, ct, sk);
    ghost var m := Decrypted(p, ct, sk);
    // bind the message to H(pk) before deriving pre-key and coins
    CopyBytes(buf, SymBytes, sk[SecretKeyBytes - 2 * SymBytes..SecretKeyBytes - SymBytes]);
    assert buf[..] == m + SkPublicKeyHash(sk) by {
      assert buf[..] == buf[..SymBytes] + buf[SymBytes..];
    }
    HashG(p, kr, buf[..]);
    ghost var derived := DeriveKeyAndCoins(p, m, SkPublicKeyHash(sk));
    IndcpaEnc(p, cmp, buf[..SymBytes], pk, kr[SymBytes..]);
    var fail := Verify(ct, cmp[..], CiphertextBytes);
    assert fail == 0 <==> Accepts(p, ct, sk) by {
      assert ct[..CiphertextBytes] == ct && cmp[..][..CiphertextBytes] == cmp[..];
    }
    // the coins half now holds H(ct)
    HashH(p, kr, SymBytes, ct);
    // on a mismatch, z takes the place of the pre-key
    Cmov(kr, sk[SecretKeyBytes - SymBytes..], SymBytes, fail as byte);
    // the second half of kr is H(ct) on both paths
    assert kr[SymBytes..] == p.hashH(ct);
    assert kr[..] == (if Accepts(p, ct, sk) then PreKey(derived) else SkRejectionSeed(sk)) + p.hashH(ct) by {
      assert kr[..] == kr[..SymBytes] + kr[SymBytes..];
    }
    Kdf(p, ss, kr[..]);
    return 0;
  }
}
