# Kyber-768 KEM transform and backend dispatch, modelled in Dafny

This project models two files of a liboqs fork that adds "custom-secret"
variants to Kyber-768:

- `src/kem/kyber/pqcrystals-kyber_kyber768_avx2/kem.c`, the KEM transform.
  It is the Fujisaki–Okamoto construction with implicit rejection of the
  CRYSTALS-Kyber round-3 specification (Algorithms 7 to 9). Around it sit a
  seeded key generation and custom-secret encapsulation and decapsulation in
  a CPA form and a CCA form.
- `src/kem/kyber/kem_kyber_768.c`, which picks an AVX2, aarch64 or reference
  backend for each `OQS_KEM_kyber_768_*` entry point.

Files and modules:

- `params.dfy` (`Params`): the Kyber-768 sizes, and fixed-length byte-string
  types for every buffer.
- `primitives.dfy` (`Primitives`): the functions kem.c calls but does not
  define. These are `indcpa_keypair`, `indcpa_keypair_based_on_input`,
  `indcpa_enc`, `indcpa_dec`, `hash_h`, `hash_g` and `kdf`. They are fields of
  a `Primitives` value of total functions, so every result holds for every
  choice of them. The module also has methods that write their outputs into
  arrays, as the C calls do, and the byte copy.
- `constant_time.dfy` (`ConstantTime`): `verify` and `cmov` as byte loops.
  Their contracts are the ones the decapsulation call sites rely on.
- `kem_spec.dfy` (`KemSpec`): the KEM as functions on byte strings. It holds
  the secret-key layout, key generation, the encapsulation chain and
  decapsulation as Algorithm 9 states it with a branch. It also holds the
  custom CPA pair and the lemmas: round trips and implicit rejection.
- `kem.dfy` (`Kem`): the eight functions of kem.c as methods. They write the
  caller's output arrays and the local `buf`, `kr` and `cmp` arrays step by
  step, as the C does. Each is proved equal to its `KemSpec` function. In
  particular, the verify/cmov form of decapsulation is proved equal to the
  branch form.
- `session.dfy` (`KemSession`): whole sessions through the `Kem` methods.
  Each one runs key generation, then encapsulation, then decapsulation.
- `dispatch.dfy` (`Dispatch`): the backend choice as a pure function of the
  operation, the build macros and the CPU probes. Lemmas cover each build
  configuration, which function each fallback really calls, and what that
  means for the custom-secret inputs.

Randomness is passed in as parameters. These are the `randombytes` draws and
the draw inside `indcpa_keypair`. The contents of uninitialised stack buffers
that the custom CPA functions read are parameters too. IND-CPA correctness is
the hypothesis `CpaInverts(p, pk, sk)`: decryption under `sk` inverts
encryption under `pk` for all messages and coins. The round-trip lemmas
assume it for the generated key pair, and nothing else is assumed.

As in Algorithms 8 and 9 of the Kyber round-3 specification, the KDF input
is the pre-key followed by H(ct). The code gets it by overwriting the coins
half of `kr` with H(ct) (kem.c:103, 283).

`keypair_based_on_input` has no return statement when AVX2 is not built
(kem_kyber_768.c:85-97), which is the `FallsOffEnd` selection. On an AVX2 dist
build without the AVX2 CPU set, it calls the plain `ref_keypair`.

In these places the model follows the code, which differs from what the
function comments suggest:

- The custom-secret entry points do not keep their semantics on non-AVX2
  paths. Their fallbacks call the plain `enc` and `dec`.
- The custom CPA functions copy 64 bytes into `ss`, although their comments
  size `ss` as `KYBER_SSBYTES` (32). `Kem.KemEncCustomSecretCpa` and
  `Kem.KemDecCustomSecretCpa` therefore require a 64-byte buffer. The upper 32
  bytes are whatever the uninitialised upper half of `buf` held.

## Model

| member | source | states |
|---|---|---|
| `Kem.KemKeypair` | src/kem/kyber/pqcrystals-kyber_kyber768_avx2/kem.c:24-33 | pk is indcpa_keypair's public key; sk is exactly `KeyGen`'s: indcpa sk, pk, H(pk), then the randombytes draw z; returns 0 |
| `Kem.KemKeypairBasedOnInput` | src/kem/kyber/pqcrystals-kyber_kyber768_avx2/kem.c:50-66 | the same layout from indcpa_keypair_based_on_input, with the last 32 bytes of sk equal to key_input[0..32) and no draw; returns 0 |
| `Kem.KemEnc` | src/kem/kyber/pqcrystals-kyber_kyber768_avx2/kem.c:83-107 | ct and ss are exactly `Encaps(pk, r)`: m = H(r), kr = G(m ‖ H(pk)), ct = Enc(m, pk, kr[32..64)), ss = KDF(kr[0..32) ‖ H(ct)); returns 0 |
| `Kem.KemEncCustomSecretCpa` | src/kem/kyber/pqcrystals-kyber_kyber768_avx2/kem.c:126-166 | ct encrypts input[0..32) under the uninitialised coins kr[32..64); the 64-byte ss is input[0..32) followed by the uninitialised upper half of buf; returns 0 |
| `Kem.KemEncCustomSecretCca` | src/kem/kyber/pqcrystals-kyber_kyber768_avx2/kem.c:185-241 | ct and ss are exactly what crypto_kem_enc yields when its random draw is input[0..32), so they are deterministic in (input, pk); returns 0 |
| `Kem.KemDec` | src/kem/kyber/pqcrystals-kyber_kyber768_avx2/kem.c:260-292 | the verify/cmov computation yields Algorithm 9's branch: KDF(G(m' ‖ h)[0..32) ‖ H(ct)) when re-encryption gives ct back, otherwise KDF(z ‖ H(ct)); returns 0 on both paths |
| `Kem.KemDecCustomSecretCpa` | src/kem/kyber/pqcrystals-kyber_kyber768_avx2/kem.c:311-331 | ss is indcpa_dec(ct, sk) followed by the uninitialised upper half of buf, with no re-encryption check; returns 0 |
| `Kem.KemDecCustomSecretCca` | src/kem/kyber/pqcrystals-kyber_kyber768_avx2/kem.c:350-398 | the same secret as crypto_kem_dec (`Decaps`) for every ct and sk; returns 0 |
| `ConstantTime.Verify` | src/kem/kyber/pqcrystals-kyber_kyber768_avx2/kem.c:280 | returns 0 iff the first len bytes of the two buffers are equal, and 1 otherwise |
| `ConstantTime.Cmov` | src/kem/kyber/pqcrystals-kyber_kyber768_avx2/kem.c:286 | copies the first len bytes of x into r iff the flag is 1, leaves them iff it is 0, touches nothing else |
| `KemSpec.LayoutIsContiguous` | src/kem/kyber/pqcrystals-kyber_kyber768_avx2/kem.c:28-31 | SK = INDCPA_SK + PK + 2·SYMBYTES, so the copied pk, H(pk) and z fill sk exactly |
| `KemSpec.SecretKeyFields` | src/kem/kyber/pqcrystals-kyber_kyber768_avx2/kem.c:269-286 | the offsets decapsulation reads (pk at INDCPA_SK, H(pk) at SK-64, z at SK-32) give back the fields that key generation wrote |
| `KemSpec.SecretKeyFromFields` | src/kem/kyber/pqcrystals-kyber_kyber768_avx2/kem.c:27-31 | every secret key is the concatenation of its four fields (the converse of `SecretKeyFields`) |
| `KemSpec.KeyGen` | src/kem/kyber/pqcrystals-kyber_kyber768_avx2/kem.c:24-33 | the generated key embeds its own pk and H(pk) (`WellFormed`), the IND-CPA secret key, and z as its last 32 bytes |
| `KemSpec.KeyGenBasedOnInput` | src/kem/kyber/pqcrystals-kyber_kyber768_avx2/kem.c:50-66 | the seeded key is well formed, and its last 32 bytes are key_input[0..32) |
| `KemSpec.EncapsDecapsRoundTrip` | src/kem/kyber/pqcrystals-kyber_kyber768_avx2/kem.c:271-289 | under IND-CPA correctness, decapsulating an honest encapsulation under a well-formed key passes the re-encryption check and returns the encapsulated secret |
| `KemSpec.KeyGenRoundTrip` | src/kem/kyber/pqcrystals-kyber_kyber768_avx2/kem.c:28-29 | the round trip for keys from crypto_kem_keypair, since the H(pk) stored in sk is the one encapsulation hashes in |
| `KemSpec.KeyGenBasedOnInputRoundTrip` | src/kem/kyber/pqcrystals-kyber_kyber768_avx2/kem.c:55-56 | the round trip for keys from crypto_kem_keypair_based_on_input |
| `KemSpec.RejectionDependsOnlyOnSeed` | src/kem/kyber/pqcrystals-kyber_kyber768_avx2/kem.c:285-289 | implicit rejection: a rejected ciphertext gets the same secret under any two keys with the same z |
| `KemSpec.AcceptanceIgnoresSeed` | src/kem/kyber/pqcrystals-kyber_kyber768_avx2/kem.c:278-289 | acceptance and the accepted secret do not depend on z |
| `KemSpec.CustomCpaRoundTrip` | src/kem/kyber/pqcrystals-kyber_kyber768_avx2/kem.c:311-331 | under IND-CPA correctness, the CPA pair carries input[0..32) into the first 32 bytes of both secrets, whatever coins were used |
| `KemSession.StandardSession` | src/kem/kyber/pqcrystals-kyber_kyber768_avx2/kem.c:24-292 | keypair, then enc, then dec on fresh buffers: both sides hold the same 32-byte secret |
| `KemSession.CustomCcaSession` | tests/example_kem.c:111-145 | the driver's CCA sequence, keypair, then enc_custom_secret_CCA, then dec_custom_secret_CCA: both sides agree, on crypto_kem_enc's secret for the draw input[0..32) |
| `KemSession.SeededCustomCcaSession` | src/kem/kyber/pqcrystals-kyber_kyber768_avx2/kem.c:50-66 | keypair_based_on_input, then enc_custom_secret_CCA, then dec_custom_secret_CCA: the seeded key pair round-trips too, on crypto_kem_enc's secret for the draw input[0..32) |
| `KemSession.DriverCpaBuffersOverrun` | tests/example_kem.c:47-48 | the driver's 32-byte secret buffers cannot take the 64 bytes the custom CPA functions copy: the secrets the CPA functions specify are 32 bytes longer than the buffer, so each copy runs 32 bytes past the end |
| `KemSession.CustomCpaSession` | tests/example_kem.c:50-92 | the driver's CPA sequence, keypair, then enc_custom_secret_CPA, then dec_custom_secret_CPA, run with its secret buffers corrected to 64 bytes: both sides start with input[0..32) |
| `Dispatch.Select` | src/kem/kyber/kem_kyber_768.c:38-253 | every forwarded call is declared under the build's guards (AVX2 functions only when AVX2 is built, aarch64 only when aarch64 is built, ref and aarch64 only the plain three); AVX2 gets the requested operation, the others its plain form; aarch64 is reached only when AVX2 is not built; an entry falls off its end exactly for keypair_based_on_input built without AVX2 |
| `Dispatch.Avx2DistBuildSelection` | src/kem/kyber/kem_kyber_768.c:59-69 | AVX2 build with dist build: the AVX2 backend iff AVX2 ∧ BMI2 ∧ POPCNT, otherwise the reference backend's plain operation |
| `Dispatch.NoProbeWithoutDistBuild` | src/kem/kyber/kem_kyber_768.c:60-64 | without dist build the selection is the same on every CPU; on an AVX2 build it is the AVX2 backend unconditionally |
| `Dispatch.Aarch64Selection` | src/kem/kyber/kem_kyber_768.c:70-79 | aarch64 without AVX2: the aarch64 plain operation iff NEON is present or it is not a dist build, the reference one otherwise |
| `Dispatch.ReferenceOnlySelection` | src/kem/kyber/kem_kyber_768.c:80-82 | neither optimised backend built: always the reference plain operation |
| `Dispatch.FallbacksArePlain` | src/kem/kyber/kem_kyber_768.c:125-253 | every path that does not reach the AVX2 backend calls plain keypair/enc/dec; for keypair_based_on_input that is ref_keypair |
| `Dispatch.CustomEncapsFallbackIgnoresInput` | src/kem/kyber/kem_kyber_768.c:125-175 | on non-AVX2 paths of both custom encapsulations, the output is crypto_kem_enc's and input_message has no influence |
| `Dispatch.CustomDecapsFallbackIsStandard` | src/kem/kyber/kem_kyber_768.c:203-253 | on non-AVX2 paths of both custom decapsulations, the output is crypto_kem_dec's, so the CPA variant gets the re-encryption check and implicit rejection |
| `Dispatch.SeededKeypairFallbackIgnoresInput` | src/kem/kyber/kem_kyber_768.c:85-97 | the seeded keypair's only fallback (AVX2 dist build, CPU lacks the AVX2 set) is ref_keypair, whose key pair does not depend on key_input |
| `Dispatch.EntryStatus` | src/kem/kyber/kem_kyber_768.c:59-253 | an entry point returns the status of the declared function it forwards to, cast to OQS_STATUS, and has no result exactly for keypair_based_on_input built without AVX2 |
| `Dispatch.EntriesReportSuccess` | src/kem/kyber/kem_kyber_768.c:59-253 | the status is passed through unchanged, and every kem.c function returns 0, so every defined entry returns OQS_SUCCESS; no entry adds an error path |

## Left out

- The IND-CPA scheme, SHA3-256, SHA3-512 and SHAKE-256 are uninterpreted. Their internals (polynomial arithmetic, sampling, compression) are not part of this model.
- `randombytes` and the draw inside `indcpa_keypair` are parameters. So is the content of uninitialised stack memory that the custom CPA functions read.
- `indcpa_dec` is given only the first `KYBER_INDCPA_SECRETKEYBYTES` bytes of the secret key, which is all it reads. indcpa.c is not part of this model.
- Kyber's small decryption-failure probability is not modelled. IND-CPA correctness is the stated hypothesis `CpaInverts` of the round-trip lemmas, not a proved fact.
- The data-independent timing of `verify` and `cmov` is not modelled, only their results. verify.c is not part of this model: `ConstantTime` holds the reference byte loops.
- params.h is not part of this model. The sizes are Kyber-768's round-3 values, with the secret-key size defined as the sum that the layout relies on.
- Read-only inputs are passed by value, so aliasing between an input and an output buffer is not modelled. Output buffers are required to be distinct arrays.
- Real CPU probing (`OQS_CPU_has_extension`) is not modelled: the probe answers are plain booleans. The AVX2, aarch64 and reference code is not modelled either.
- The reference and aarch64 backends are not part of this model. `Dispatch.EncapsOutput`, `Dispatch.DecapsOutput` and `Dispatch.KeypairOutput` assume they compute the same functions as the AVX2 kem.c.
- The `OQS_ENABLE_KEM_kyber_768` guard around the whole file is assumed on.
- The registration record `OQS_KEM_kyber_768_new` (kem_kyber_768.c:9-36) is left out: it is allocation plus constant field assignments.
- The demo driver's printing, `OQS_init`/`OQS_destroy` and `OQS_MEM_cleanse` wiping are left out. Its CPA and CCA key-exchange sequences appear as `KemSession.CustomCpaSession` (with enlarged secret buffers, see Findings) and `KemSession.CustomCcaSession`.
- The commented-out `printf` blocks of kem.c are left out.
- That different rejected ciphertexts get unrelated secrets would need pseudorandomness of the KDF, which an uninterpreted function cannot provide. Only determinism and dependence on z and ct alone are proved.

## Findings

| source | as written | input that shows it | evidently intended | confidence | as-written member | corrected member |
|---|---|---|---|---|---|---|
| src/kem/kyber/pqcrystals-kyber_kyber768_avx2/kem.c:156 | enc_custom_secret_CPA (and dec_custom_secret_CPA at kem.c:319) copies 2*KYBER_SYMBYTES = 64 bytes into `ss` | the demo driver's `shared_secret_e`/`shared_secret_d` of OQS_KEM_kyber_768_length_shared_secret = 32 bytes (tests/example_kem.c:47-48), passed at tests/example_kem.c:73 and :85, when the entry point forwards to the AVX2 CPA functions: an AVX2 build and, under dist build, a CPU with AVX2, BMI2 and POPCNT (the ref_enc/ref_dec fallbacks at kem_kyber_768.c:133 and :211 write 32 bytes) | secret buffers of the 64 bytes the CPA functions write | not executed | `KemSession.DriverCpaBuffersOverrun` | `KemSession.CustomCpaSession` |
