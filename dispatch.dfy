/**
 * The backend selection of kem_kyber_768.c. Each OQS_KEM_kyber_768_* entry
 * point chooses, from the build configuration (the OQS_ENABLE_* and
 * OQS_DIST_BUILD macros) and the CPU-extension probes, one function of one
 * backend to forward to, and returns that function's status unchanged.
 */
module Dispatch {
  import opened Params
  import opened Primitives
  import KemSpec

  /** The eight entry points. */
  datatype Operation =
    | Keypair | KeypairBasedOnInput
    | Encaps | EncapsCustomCpa | EncapsCustomCca
    | Decaps | DecapsCustomCpa | DecapsCustomCca

  /** OQS_ENABLE_KEM_kyber_768_avx2, OQS_ENABLE_KEM_kyber_768_aarch64, OQS_DIST_BUILD. */
  datatype BuildConfig = BuildConfig(avx2Enabled: bool, aarch64Enabled: bool, distBuild: bool)

  /** The answers of OQS_CPU_has_extension for the extensions the file probes. */
  datatype CpuFeatures = CpuFeatures(avx2: bool, bmi2: bool, popcnt: bool, neon: bool)

  datatype Backend = Avx2 | Aarch64 | Ref

  /**
   * What an entry point does: forward to `callee` of `backend`, or, for
   * keypair_based_on_input built without AVX2, fall off the end of a non-void
   * function, which has no defined result in C.
   */
  datatype Selection = Forward(backend: Backend, callee: Operation) | FallsOffEnd

  /** The plain keypair/enc/dec function of the same family. */
  function PlainOperation(op: Operation): Operation {
    match op
    case Keypair | KeypairBasedOnInput => Keypair
    case Encaps | EncapsCustomCpa | EncapsCustomCca => Encaps
    case Decaps | DecapsCustomCpa | DecapsCustomCca => Decaps
  }

  /**
   * The functions declared for a backend under the build's guards: the
   * reference functions always, the AVX2 ones only when AVX2 is built, the
   * aarch64 ones only when aarch64 is built; ref and aarch64 declare only
   * the three plain functions.
   */
  predicate Provides(build: BuildConfig, b: Backend, op: Operation) {
    match b
    case Avx2 => build.avx2Enabled
    case Aarch64 => build.aarch64Enabled && op == PlainOperation(op)
    case Ref => op == PlainOperation(op)
  }

  predicate Avx2Usable(cpu: CpuFeatures) {
    cpu.avx2 && cpu.bmi2 && cpu.popcnt
  }

  /**
   * The preprocessor branches and the runtime probe of every entry point.
   * Every forwarded call is one declared under the build's guards, and is
   * the requested operation on AVX2 or its plain form elsewhere; the
   * aarch64 branch is only reached when AVX2 is not built; only
   * keypair_based_on_input without AVX2 has no result.
   */
  function Select(op: Operation, build: BuildConfig, cpu: CpuFeatures): (sel: Selection)
    ensures sel.Forward? ==> Provides(build, sel.backend, sel.callee)
    ensures sel.Forward? ==> sel.callee in {op, PlainOperation(op)} && (sel.backend == Avx2 ==> sel.callee == op)
    ensures sel.Forward? && sel.backend == Aarch64 ==> !build.avx2Enabled
    ensures sel.FallsOffEnd? <==> op == KeypairBasedOnInput && !build.avx2Enabled
  {
    if build.avx2Enabled then
      if !build.distBuild || Avx2Usable(cpu) then Forward(Avx2, op)
      else Forward(Ref, PlainOperation(op))
    else if op == KeypairBasedOnInput then FallsOffEnd
    else if build.aarch64Enabled then
      if !build.distBuild || cpu.neon then Forward(Aarch64, PlainOperation(op))
      else Forward(Ref, PlainOperation(op))
    else Forward(Ref, PlainOperation(op))
  }

  /** AVX2 build with OQS_DIST_BUILD: AVX2 iff AVX2, BMI2 and POPCNT are all present, reference otherwise. */
  lemma Avx2DistBuildSelection(op: Operation, build: BuildConfig, cpu: CpuFeatures)
    requires build.avx2Enabled && build.distBuild
    ensures Select(op, build, cpu) == if Avx2Usable(cpu) then Forward(Avx2, op) else Forward(Ref, PlainOperation(op))
    ensures Select(op, build, cpu).backend == Avx2 <==> Avx2Usable(cpu)
  {}

  /** Without OQS_DIST_BUILD no probe is consulted: the selection is the same on every CPU. */
  lemma NoProbeWithoutDistBuild(op: Operation, build: BuildConfig, cpu1: CpuFeatures, cpu2: CpuFeatures)
    requires !build.distBuild
    ensures Select(op, build, cpu1) == Select(op, build, cpu2)
    ensures build.avx2Enabled ==> Select(op, build, cpu1) == Forward(Avx2, op)
  {}

  /** aarch64 build without AVX2: aarch64 iff NEON is present (under dist build), reference otherwise. */
  lemma Aarch64Selection(op: Operation, build: BuildConfig, cpu: CpuFeatures)
    requires !build.avx2Enabled && build.aarch64Enabled && op != KeypairBasedOnInput
    ensures Select(op, build, cpu).Forward? && Select(op, build, cpu).callee == PlainOperation(op)
    ensures Select(op, build, cpu).backend == Aarch64 <==> !build.distBuild || cpu.neon
    ensures Select(op, build, cpu).backend != Aarch64 ==> Select(op, build, cpu).backend == Ref
  {}

  /** Neither optimised backend built: always the reference backend. */
  lemma ReferenceOnlySelection(op: Operation, build: BuildConfig, cpu: CpuFeatures)
    requires !build.avx2Enabled && !build.aarch64Enabled && op != KeypairBasedOnInput
    ensures Select(op, build, cpu) == Forward(Ref, PlainOperation(op))
  {}

  /** Every path that does not reach the AVX2 backend runs a plain keypair/enc/dec. */
  lemma FallbacksArePlain(op: Operation, build: BuildConfig, cpu: CpuFeatures)
    requires Select(op, build, cpu).Forward? && Select(op, build, cpu).backend != Avx2
    ensures Select(op, build, cpu).callee == PlainOperation(op)
    ensures op == KeypairBasedOnInput ==> Select(op, build, cpu) == Forward(Ref, Keypair)
  {}

  /*** What the forwarded call computes ***/

  /**
   * The randomness and stack contents the eight kem.c functions consume:
   * keypair's draws, enc's draw, and what the CPA variants read from
   * uninitialised buffers.
   */
  datatype Environment = Environment(
    keygenCoins: seq<byte>, z: Bytes32, r: Bytes32,
    cpaCoins: Bytes32, encUpper: Bytes32, decUpper: Bytes32)

  /**
   * What the called encapsulation writes, on the assumption that every
   * backend computes the same function as the AVX2 code of kem.c.
   */
  function EncapsOutput(p: Primitives, callee: Operation, input: seq<byte>, pk: PublicKey, env: Environment): KemSpec.Encapsulation
    requires callee in {Encaps, EncapsCustomCpa, EncapsCustomCca} && SymBytes <= |input|
  {
    match callee
    case EncapsCustomCpa => KemSpec.EncapsCustomCpa(p, input, pk, env.cpaCoins, env.encUpper)
    case EncapsCustomCca => KemSpec.Encaps(p, pk, input[..SymBytes])
    case _ => KemSpec.Encaps(p, pk, env.r)
  }

  /** What the called decapsulation writes into the shared-secret buffer. */
  function DecapsOutput(p: Primitives, callee: Operation, ct: Ciphertext, sk: SecretKey, env: Environment): seq<byte>
    requires callee in {Decaps, DecapsCustomCpa, DecapsCustomCca}
  {
    match callee
    case DecapsCustomCpa => KemSpec.DecapsCustomCpa(p, ct, sk, env.decUpper)
    case _ => KemSpec.Decaps(p, ct, sk)
  }

  /** On every fallback path of the custom encapsulations, input_message has no influence. */
  lemma CustomEncapsFallbackIgnoresInput(
    p: Primitives, op: Operation, build: BuildConfig, cpu: CpuFeatures,
    input1: seq<byte>, input2: seq<byte>, pk: PublicKey, env: Environment)
    requires op in {EncapsCustomCpa, EncapsCustomCca}
    requires SymBytes <= |input1| && SymBytes <= |input2|
    requires Select(op, build, cpu).backend != Avx2
    ensures Select(op, build, cpu).callee == Encaps
    ensures EncapsOutput(p, Select(op, build, cpu).callee, input1, pk, env)
         == EncapsOutput(p, Select(op, build, cpu).callee, input2, pk, env)
         == KemSpec.Encaps(p, pk, env.r)
  {
    FallbacksArePlain(op, build, cpu);
  }

  /**
   * On every fallback path of decaps_custom_secret_CPA the full re-encryption
   * check and implicit rejection run: the result is crypto_kem_dec's.
   */
  lemma CustomDecapsFallbackIsStandard(
    p: Primitives, op: Operation, build: BuildConfig, cpu: CpuFeatures,
    ct: Ciphertext, sk: SecretKey, env: Environment)
    requires op in {DecapsCustomCpa, DecapsCustomCca}
    requires Select(op, build, cpu).backend != Avx2
    ensures Select(op, build, cpu).callee == Decaps
    ensures DecapsOutput(p, Select(op, build, cpu).callee, ct, sk, env) == KemSpec.Decaps(p, ct, sk)
  {
    FallbacksArePlain(op, build, cpu);
  }

  /**
   * What the called key generation writes: the seeded variant takes the
   * IND-CPA pair and z from key_input, the plain one draws both.
   */
  function KeypairOutput(p: Primitives, callee: Operation, keyInput: seq<byte>, env: Environment): KemSpec.KeyPair
    requires callee in {Keypair, KeypairBasedOnInput} && SymBytes <= |keyInput|
  {
    if callee == KeypairBasedOnInput then KemSpec.KeyGenBasedOnInput(p, keyInput)
    else KemSpec.KeyGen(p, env.keygenCoins, env.z)
  }

  /**
   * The fallback of keypair_based_on_input, reached only on an AVX2 dist
   * build on a CPU without the AVX2 set, is ref_keypair: key_input plays no
   * part, and z is drawn rather than copied.
   */
  lemma SeededKeypairFallbackIgnoresInput(
    p: Primitives, build: BuildConfig, cpu: CpuFeatures, keyInput1: seq<byte>, keyInput2: seq<byte>, env: Environment)
    requires SymBytes <= |keyInput1| && SymBytes <= |keyInput2|
    requires Select(KeypairBasedOnInput, build, cpu).Forward?
    requires Select(KeypairBasedOnInput, build, cpu).backend != Avx2
    ensures build.avx2Enabled && build.distBuild && !Avx2Usable(cpu)
    ensures Select(KeypairBasedOnInput, build, cpu).callee == Keypair
    ensures KeypairOutput(p, Select(KeypairBasedOnInput, build, cpu).callee, keyInput1, env)
         == KeypairOutput(p, Select(KeypairBasedOnInput, build, cpu).callee, keyInput2, env)
         == KemSpec.KeyGen(p, env.keygenCoins, env.z)
  {
    FallbacksArePlain(KeypairBasedOnInput, build, cpu);
  }

  /*** Status ***/

  /**
   * The OQS_STATUS an entry point returns when the function it forwards to
   * reports `calleeStatus(backend, callee)`: that integer, cast; None when
   * the entry point falls off its end.
   */
  function EntryStatus(
    op: Operation, build: BuildConfig, cpu: CpuFeatures, calleeStatus: (Backend, Operation) -> int): (r: Option<int>)
    ensures r.None? <==> op == KeypairBasedOnInput && !build.avx2Enabled
    ensures r.Some? ==> exists b: Backend, o: Operation :: Provides(build, b, o) && r.value == calleeStatus(b, o)
    ensures r.Some? ==> r.value == calleeStatus(Select(op, build, cpu).backend, Select(op, build, cpu).callee)
  {
    var sel := Select(op, build, cpu);
    if sel.Forward? then Some(calleeStatus(sel.backend, sel.callee)) else None
  }

  datatype Option<T> = None | Some(value: T)

  /**
   * Every function of kem.c returns 0, so wherever the result is defined an
   * entry point returns OQS_SUCCESS (0); no entry point adds an error of its own.
   */
  lemma EntriesReportSuccess(op: Operation, build: BuildConfig, cpu: CpuFeatures, calleeStatus: (Backend, Operation) -> int)
    requires forall b: Backend, o: Operation :: calleeStatus(b, o) == 0
    ensures EntryStatus(op, build, cpu, calleeStatus) == Some(0) <==> !(op == KeypairBasedOnInput && !build.avx2Enabled)
    ensures EntryStatus(op, build, cpu, calleeStatus) != Some(0) ==> EntryStatus(op, build, cpu, calleeStatus) == None
  {}
}
