/** The profiler engine's session state and the values a freshly constructed `Profiler` starts
    from. Only the parts of the engine whose behaviour the header defines are modelled: the
    sampling, aggregation and code-cache routines are declared there without bodies. */
module ProfilerCore {
  import opened Machine
  import opened Samples

  const MAX_CALLTRACES: nat := 65536
  const MAX_STACK_FRAMES: nat := 2048
  const MAX_NATIVE_FRAMES: nat := 128
  const MAX_NATIVE_LIBS: nat := 2048
  const CONCURRENCY_LEVEL: nat := 16

  /** Name of the native code cache that holds the JVM's generated runtime stubs. */
  const RUNTIME_STUBS_NAME: string := "[stubs]"

  datatype State = Idle | Running | Terminated

  /** The engine fields the constructor sets and that the model keeps:
      - `frameBuffer`: the shared frame buffer, absent (NULL) until a session allocates it;
      - `jitMinAddress`, `jitMaxAddress`: bounds of all JIT-compiled code seen so far;
      - `runtimeStubsName`: name given to the runtime-stub code cache;
      - `nativeLibCount`: number of entries used in the native library table. */
  datatype Profiler = Profiler(
    state: State,
    frameBuffer: Option<seq<CallFrame>>,
    jitMinAddress: Address,
    jitMaxAddress: Address,
    runtimeStubsName: string,
    nativeLibCount: I32)

  /** The native library count is a valid fill level of the MAX_NATIVE_LIBS-slot table. */
  predicate Valid(p: Profiler)
  {
    0 <= p.nativeLibCount as int <= MAX_NATIVE_LIBS
  }

  /** `a` lies between the JIT bounds, both ends included: the widest reading of the range. */
  predicate WithinJitBounds(p: Profiler, a: Address)
  {
    p.jitMinAddress <= a <= p.jitMaxAddress
  }

  /** The `Profiler()` constructor: idle, no frame buffer, no native libraries, and JIT bounds
      set so that no address lies between them. */
  function NewProfiler(): (p: Profiler)
    ensures Valid(p)
    ensures p.state == Idle
    ensures p.frameBuffer == None
    ensures p.nativeLibCount == 0
    ensures p.jitMinAddress > p.jitMaxAddress
    ensures forall a :: !WithinJitBounds(p, a)
    ensures p.runtimeStubsName == RUNTIME_STUBS_NAME
  {
    Profiler(
      state := Idle,
      frameBuffer := None,
      jitMinAddress := U64_MAX,
      jitMaxAddress := 0,
      runtimeStubsName := RUNTIME_STUBS_NAME,
      nativeLibCount := 0)
  }

  function MinAddress(a: Address, b: Address): Address { if a <= b then a else b }

  function MaxAddress(a: Address, b: Address): Address { if a >= b then a else b }

  /** The initial bounds are the neutral elements of min/max: taking the minimum with the
      initial low bound, or the maximum with the initial high bound, changes no address. */
  lemma InitialJitBoundsAreNeutral(lo: Address, hi: Address)
    ensures MinAddress(NewProfiler().jitMinAddress, lo) == lo
    ensures MaxAddress(NewProfiler().jitMaxAddress, hi) == hi
  {
  }
}
