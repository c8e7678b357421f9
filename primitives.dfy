/**
 * The collaborators that kem.c calls but does not define: the IND-CPA
 * encryption scheme (indcpa.c), the hashes H and G and the KDF (symmetric.h)
 * and the byte copy. They are uninterpreted: a `Primitives` value is any
 * choice of total functions with the fixed output lengths of the C interface,
 * and every result proved about the KEM holds for all such choices.
 */
module Primitives {
  import opened Params

  /** Output of indcpa_keypair: a public key and the IND-CPA secret key. */
  datatype CpaKeyPair = CpaKeyPair(pk: PublicKey, sk: CpaSecretKey)

  datatype Primitives = Primitives(
    /** indcpa_keypair; its argument is the randomness the call draws internally */
    indcpaKeypair: seq<byte> -> CpaKeyPair,
    /** indcpa_keypair_based_on_input; its argument is the caller's key_input */
    indcpaKeypairBasedOnInput: seq<byte> -> CpaKeyPair,
    /** indcpa_enc(message, pk, coins) */
    indcpaEnc: (Bytes32, PublicKey, Bytes32) -> Ciphertext,
    /** indcpa_dec(ct, sk) */
    indcpaDec: (Ciphertext, CpaSecretKey) -> Bytes32,
    /** hash_h: SHA3-256 */
    hashH: seq<byte> -> Bytes32,
    /** hash_g: SHA3-512 */
    hashG: seq<byte> -> Bytes64,
    /** kdf: SHAKE-256 squeezed to KYBER_SSBYTES */
    kdf: seq<byte> -> SharedKey)

  /**
   * Perfect correctness of the IND-CPA scheme for one key pair: decryption
   * under `sk` inverts encryption under `pk` for every message and coins.
   * Kyber only has this up to a negligible failure probability; the KEM
   * round-trip lemmas take it as a hypothesis.
   */
  ghost predicate CpaInverts(p: Primitives, pk: PublicKey, sk: CpaSecretKey) {
    forall m: Bytes32, coins: Bytes32 :: p.indcpaDec(p.indcpaEnc(m, pk, coins), sk) == m
  }

  /** `s` with the bytes from offset `at` replaced by `src`. */
  function Splice(s: seq<byte>, at: nat, src: seq<byte>): (r: seq<byte>)
    requires at + |src| <= |s|
    ensures |r| == |s|
    ensures r[..at] == s[..at] && r[at..at + |src|] == src && r[at + |src|..] == s[at + |src|..]
  {
    s[..at] + src + s[at + |src|..]
  }

  /** memcpy(dst + at, src, |src|), one byte at a time. */
  method CopyBytes(dst: array<byte>, at: nat, src: seq<byte>)
    requires at + |src| <= dst.Length
    modifies dst
    ensures dst[..] == Splice(old(dst[..]), at, src)
  {
    for i := 0 to |src|
      invariant forall k :: 0 <= k < dst.Length ==>
        dst[k] == if at <= k < at + i then src[k - at] else old(dst[k])
    {
      dst[at + i] := src[i];
    }
    assert dst[..] == Splice(old(dst[..]), at, src);
  }

  /** hash_h(out + at, input, |input|): the input is read before `out` is written. */
  method HashH(p: Primitives, out: array<byte>, at: nat, input: seq<byte>)
    requires at + SymBytes <= out.Length
    modifies out
    ensures out[..] == Splice(old(out[..]), at, p.hashH(input))
  {
    CopyBytes(out, at, p.hashH(input));
  }

  /** hash_g(out, input, |input|) into a 64-byte buffer. */
  method HashG(p: Primitives, out: array<byte>, input: seq<byte>)
    requires out.Length == 2 * SymBytes
    modifies out
    ensures out[..] == p.hashG(input)
  {
    CopyBytes(out, 0, p.hashG(input));
  }

  /** kdf(out, input, |input|) into a KYBER_SSBYTES buffer. */
  method Kdf(p: Primitives, out: array<byte>, input: seq<byte>)
    requires out.Length == SsBytes
    modifies out
    ensures out[..] == p.kdf(input)
  {
    CopyBytes(out, 0, p.kdf(input));
  }

  /** indcpa_enc(ct, m, pk, coins): fills the whole ciphertext buffer. */
  method IndcpaEnc(p: Primitives, ct: array<byte>, m: Bytes32, pk: PublicKey, coins: Bytes32)
    requires ct.Length == CiphertextBytes
    modifies ct
    ensures ct[..] == p.indcpaEnc(m, pk, coins)
  {
    CopyBytes(ct, 0, p.indcpaEnc(m, pk, coins));
  }

  /**
   * indcpa_dec(m, ct, sk): writes the 32-byte message at the start of `m`.
   * It reads only the IND-CPA part at the start of the key it is given.
   */
  method IndcpaDec(p: Primitives, m: array<byte>, ct: Ciphertext, sk: seq<byte>)
    requires IndcpaMsgBytes <= m.Length && IndcpaSecretKeyBytes <= |sk|
    modifies m
    ensures m[..] == Splice(old(m[..]), 0, p.indcpaDec(ct, sk[..IndcpaSecretKeyBytes]))
  {
    CopyBytes(m, 0, p.indcpaDec(ct, sk[..IndcpaSecretKeyBytes]));
  }

  /** Stores a key pair of the IND-CPA scheme: all of `pk`, the first bytes of `sk`. */
  method StoreCpaKeyPair(kp: CpaKeyPair, pk: array<byte>, sk: array<byte>)
    requires pk.Length == PublicKeyBytes && IndcpaSecretKeyBytes <= sk.Length && pk != sk
    modifies pk, sk
    ensures pk[..] == kp.pk
    ensures sk[..] == Splice(old(sk[..]), 0, kp.sk)
  {
    CopyBytes(pk, 0, kp.pk);
    CopyBytes(sk, 0, kp.sk);
  }

  /** indcpa_keypair(pk, sk), drawing `coins` as its randomness. */
  method IndcpaKeypair(p: Primitives, coins: seq<byte>, pk: array<byte>, sk: array<byte>)
    requires pk.Length == PublicKeyBytes && IndcpaSecretKeyBytes <= sk.Length && pk != sk
    modifies pk, sk
    ensures pk[..] == p.indcpaKeypair(coins).pk
    ensures sk[..] == Splice(old(sk[..]), 0, p.indcpaKeypair(coins).sk)
  {
    StoreCpaKeyPair(p.indcpaKeypair(coins), pk, sk);
  }

  /** indcpa_keypair_based_on_input(key_input, pk, sk). */
  method IndcpaKeypairBasedOnInput(p: Primitives, keyInput: seq<byte>, pk: array<byte>, sk: array<byte>)
    requires pk.Length == PublicKeyBytes && IndcpaSecretKeyBytes <= sk.Length && pk != sk
    modifies pk, sk
    ensures pk[..] == p.indcpaKeypairBasedOnInput(keyInput).pk
    ensures sk[..] == Splice(old(sk[..]), 0, p.indcpaKeypairBasedOnInput(keyInput).sk)
  {
    StoreCpaKeyPair(p.indcpaKeypairBasedOnInput(keyInput), pk, sk);
  }
}
