# async-profiler headers: ranking rule, initial state, configuration defaults

A Dafny model of the logic that async-profiler's two central headers define in full:

- the report ranking rule of `src/profiler.h`: `cmp64` and the qsort comparators of
  `CallTraceSample` and `MethodSample`, which order aggregated entries by weighted counter,
  largest first (module `Ranking`, module `Samples`);
- the stack-walk failure taxonomy, the twelve `ticks_*` codes 0..-11 and the
  `FAILURE_TYPES` counter slots they map to (module `Ticks`);
- the session `State` enum and the values the `Profiler()` constructor starts from
  (module `ProfilerCore`);
- the `Arguments()` defaults, `Arguments::dumpRequested` and the `Error` value of
  `src/arguments.h` (module `Args`).

Fixed-width types are explicit (module `Machine`): `u64` is `U64`, C `int` is `I32`, C `long`
is `I64` (an LP64 platform), pointers are 64-bit `Address` values and NULL is `None`.

The comparators have the `int (*)(const void*, const void*)` shape that C `qsort` takes; the
routine that sorts with them is not in the headers. `Ranking.SortByCounter` is a reference
insertion sort that follows the comparator. It shows that a comparator-ordered arrangement
exists for every input and that its counters never increase down the list.
`Samples.TraceRankingIsDetermined` then shows that ANY arrangement the comparator accepts,
whatever sort produced it, has the same counter at every rank. The comparator returns 0 for
equal counters, so the order among ties is up to the sort routine, and `qsort` does not
promise a stable order. Ties are therefore not guaranteed to keep their insertion order.

`Arguments()` sets `_interval` to 0, not to `DEFAULT_INTERVAL` (10 ms). `DEFAULT_INTERVAL`
is declared next to it but not used by the constructor. The model follows the constructor.

## Model

| member | source | states |
|---|---|---|
| Ranking.Cmp64 | src/profiler.h:44-46 | the result is 1 exactly when a > b, 0 exactly when a == b, -1 exactly when a < b |
| Ranking.Cmp64Laws | src/profiler.h:44-46 | cmp64 is reflexive, antisymmetric (cmp64(a,b) == -cmp64(b,a)) and transitive in both directions |
| Samples.TraceComparator | src/profiler.h:63-65 | negative exactly when s1's counter exceeds s2's, zero exactly on equal counters, positive exactly when it is smaller |
| Samples.MethodComparator | src/profiler.h:78-80 | the same descending-by-counter rule for method samples |
| Samples.TraceComparatorLaws | src/profiler.h:55-65 | only `_counter` matters (samples and frame-buffer slice are ignored); antisymmetric, reflexive, transitive |
| Samples.MethodComparatorLaws | src/profiler.h:71-80 | only `_counter` matters (samples and frame are ignored); antisymmetric, reflexive, transitive |
| Samples.SortTraces | src/profiler.h:63-65 | the traces can be rearranged (same multiset) so that the comparator accepts every pair, and then counters never increase down the list |
| Samples.SortMethods | src/profiler.h:78-80 | the same for the flat report's method samples |
| Ranking.SortByCounter | src/profiler.h:63-65 | the generic comparator-order sort returns a permutation of its input in comparator order |
| Ranking.RankingDeterminesCounters | src/profiler.h:63-65 | two comparator-ordered permutations of the same entries have identical counter sequences |
| Samples.TraceRankingIsDetermined | src/profiler.h:63-65 | any two comparator-ordered arrangements of the same traces show the same counter at every rank, whatever the sort does with ties |
| Samples.MethodRankingIsDetermined | src/profiler.h:78-80 | the same for method samples |
| Samples.HeavierTraceRanksFirst | src/profiler.h:63-65 | of two traces, the one with the larger counter is first in every arrangement the comparator accepts, whatever their sample counts |
| Ticks.Value | src/profiler.h:96-110 | every tick code's value lies in 0..-11, above -FAILURE_TYPES |
| Ticks.FromValue | src/profiler.h:96-110 | an integer reads back as a tick code exactly when it is in 0..-11, and then as the code with that value |
| Ticks.ValuesDistinct | src/profiler.h:96-110 | the twelve codes have pairwise distinct values |
| Ticks.FailureSlot | src/profiler.h:96-123 | a code's negation indexes the `_failures` array: it is below FAILURE_TYPES |
| Ticks.SlotsDistinct | src/profiler.h:96-123 | distinct codes have distinct failure slots |
| Ticks.SlotHasCode | src/profiler.h:96-123 | every slot 0..FAILURE_TYPES-1 belongs to some code, so the codes fill the slots exactly |
| ProfilerCore.NewProfiler | src/profiler.h:178-191 | a new profiler is IDLE with no frame buffer and no native libraries; its JIT bounds have min > max, so no address lies between them; the stub cache is named "[stubs]" |
| ProfilerCore.InitialJitBoundsAreNeutral | src/profiler.h:184-185 | the initial all-ones minimum and zero maximum leave any address unchanged under min/max widening |
| Args.MakeError | src/arguments.h:61-70 | `message()` returns exactly the message the error was built with, and the error converts to true exactly when that message is not NULL |
| Args.Message | src/arguments.h:64-66 | `message()` returns the message the error holds, and the error is nothing but that message |
| Args.Failed | src/arguments.h:68-70 | the `bool` conversion is true exactly when `message()` is not NULL |
| Args.DefaultArguments | src/arguments.h:107-132 | the default configuration: no action, sample counter, any ring, event "cpu", interval and stack depth 0, frame buffer DEFAULT_FRAMEBUF, no file, every switch off, top-N counts 0, title "Flame Graph", 1200x16, minimum width 1; and it requests no dump |
| Args.DumpRequested | src/arguments.h:134-136 | a dump is requested exactly when one of collapsed, flame graph, tree, JFR or summary is switched on, or the traces or flat top-N count is positive |
| Args.DumpRequestedMonotone | src/arguments.h:134-136 | switching on more reports or raising a top-N count never turns a dump request off |
| Args.DumpRequestedIgnoresOtherFields | src/arguments.h:124-136 | the immediate-trace switch and non-positive top-N counts never change whether a dump is requested; the defaults with only these changed request none |

## Left out

- Sampling and aggregation (`hashCallTrace`, `storeCallTrace`, `copyToFrameBuffer`, `storeMethod`, `hashMethod`, `recordSample`): declared in `src/profiler.h` without bodies, so there is no behaviour to model.
- Code-range lookup (`addressInCode`, `findNativeMethod`, `fillTopFrame`, `updateJitRange`, `addJavaMethod`, `removeJavaMethod`, `addRuntimeStub`): declared without bodies; `CodeCache` and `NativeCodeCache` are not part of this model.
- Session control (`start`, `stop`, `run`, `runInternal`, `shutdown`) and the `dump*` report writers: declared without bodies; only the `State` values and the initial state are modelled.
- The sort routine itself (C `qsort`): not in the headers; `Ranking.SortByCounter` stands in as a reference sort, and the ranking results are stated for any comparator-ordered arrangement.
- `SpinLock`, `Mutex`, `_frame_buffer_index` and `_thread_events_state`: concurrency primitives and volatile fields whose definitions are not shown.
- JVMTI callbacks and the JVM function pointers (`_ThreadLocalStorage_thread`, `_JvmtiEnv_GetStackTrace`): calls into the host runtime.
- `uptime()`: reads the wall clock and `_start_time`.
- `_thread_names`, `_engine`, `_args`, `_start_time`, `_total_samples`, `_total_counter` and the sample tables: library containers and state that the constructor does not initialise and that routines declared without bodies fill in.
- `_jfr`: the flight recorder, default-constructed by `Profiler()`; it writes recordings, which is I/O.
- `total_samples()` and `total_counter()`: they return the two totals, which only routines declared without bodies update, so the model has nothing to return.
- `Arguments::parse`, `parseUnits` and the `_buf` scratch array: declared without bodies.
- `Error::OK`: its value is defined outside the headers.
- `_minwidth`: a C `double`; only its default 1 is recorded, as a `real`.
- `FULL_VERSION_STRING`: a build-time banner.
