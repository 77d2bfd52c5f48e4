# testful core, modelled in Dafny

This project models the sequential core of testful, a test generator for Java classes. It covers five parts.
- **Fault identity** (`Fault`). A thrown exception's stack trace is cut down to the frames between the test infrastructure and the class under test. Recursion is collapsed to one period between two sentinel frames. Faults are equal when the exception name, the stack and the cause name agree. Faults are written to and read from an object stream.
- **Remote class loading** (`RemoteClassLoader`). A four-tier policy decides which class names the system loader serves. A per-loader `loaded` set means each class is fetched at most once. A latency counter is read and reset.
- **Mutation analysis** (`MutationExecutionManager`). For each mutated class the test is run plain, then with result tracking, then with result verification. A class on which the test finds faults is skipped. A discovery run finds the reachable mutants. Each reachable mutant is then run, in index order, with a time budget, and classified as killed or alive.
- **Def-exposition coverage** (`CoverageDefExp`). A map from a definition stack to a set of contextual ids. Its quality is the total number of ids. Merge is a per-key union done in place. `contains` is a per-key superset check guarded by quality.
- **Mutation-score coverage** (`MutationCoverage`). A map from class name to a single-class mutation coverage. It has add/merge by key, the killed total, the mean quality and an irreflexive `contains`.

Each imperative operation of the source is a `method` with the source's loops. It is proved against a specification function, and the properties the source promises are proved about that function as lemmas. The other operations are functions and lemmas.

Modules:
- `StackTraces` (stack_traces.dfy): `processStackTrace`'s cuts, `checkRecursion` and `simplify`.
- `Faults` (faults.dfy): fault construction, identity and streaming.
- `RemoteClassLoading` (remote_class_loader.dfy).
- `MutationExecution` (mutation_execution.dfy).
- `DefExposition` (coverage_def_exp.dfy).
- `MutationScore` (mutation_coverage.dfy).
- Shared helpers: `Wrappers`, `Streams` (the token stream and the 16-bit short), `JavaStrings` (`String.compareTo` over Unicode scalar values, as a total order) and `MapSums` (sums over map values).

Streams are sequences of typed tokens, one per `writeUTF`/`writeInt`/`writeShort`/`writeBoolean`/object write. A Java `short` is written as its 16-bit pattern and read back sign-extended.

Notes on the code's behaviour:
- The mutant budget `5*T+500` uses the time of the *last* run before discovery (`MutationExecutionManager.java:133`). When the plain run found no fault, that is the verifying run, not the baseline.
- Faults are checked after the tracked and verified runs, on the last run's count (lines 127-131).
- `simplify` returns *only* the sentinel-bracketed window of `step` frames. The rest of the stack is dropped (`Fault.java:175-181`).
- Recursion simplification applies to `TestStoppedException`, and to `UnexpectedExceptionException` whose cause is a `StackOverflowError` (`Fault.java:146-147`).
- `testful.model.OperationResultTestExecutor` carries the system prefix `testful.model.OperationResult`. It is still loaded remotely, because the exact lists are consulted first (`RemoteClassLoader.java:60, 75, 84-98`). The prefix property is therefore proved for every other name.

## Model

| member | source | states |
|---|---|---|
| StackTraces.LastOf | testful/src/testful/coverage/fault/Fault.java:120 | the backward scan stops at the highest index below `k` whose class is the target, or -1 when there is none |
| StackTraces.UpperCut | testful/src/testful/coverage/fault/Fault.java:119-124 | the upper cut is one past the last frame of the target class; it is the full length when the target is null or absent |
| StackTraces.LowerCutFrom | testful/src/testful/coverage/fault/Fault.java:127-139 | the lower cut is the least index from which none of the next 11 frames below the upper cut is in `testful.` |
| StackTraces.CheckRecursion | testful/src/testful/coverage/fault/Fault.java:189-202 | the loop returns true exactly when every compared frame matches its phase in the period and at least MIN_ITER=5 periods were counted |
| StackTraces.CountedBelow | testful/src/testful/coverage/fault/Fault.java:192-201 | fewer than 5 periods are counted exactly when fewer than `3*step+1` frames were compared |
| StackTraces.CountedUnderGuard | testful/src/testful/coverage/fault/Fault.java:166-201 | under `simplify`'s guard `initial+1 >= 5*step` the count always reaches MIN_ITER |
| StackTraces.CheckRecursionReadsBelowInitial | testful/src/testful/coverage/fault/Fault.java:192-198 | every index `checkRecursion` reads lies in `[0, initial]` |
| StackTraces.SearchFrom | testful/src/testful/coverage/fault/Fault.java:163-168 | a hit found by the nested `initial`/`step` loops is a tried pair on which the recursion check succeeds |
| StackTraces.FindRecursionIsFirst | testful/src/testful/coverage/fault/Fault.java:163-168 | no hit means no tried pair recurs; a hit is the first recurring pair in the loops' order |
| StackTraces.FoundIffPeriodic | testful/src/testful/coverage/fault/Fault.java:163-186 | a collapse happens iff some `1 <= step < 25` with `initial+1 >= 5*step` has all its compared frames periodic |
| StackTraces.WindowKeys | testful/src/testful/coverage/fault/Fault.java:173 | the keys compared are the string forms of the frames `initial`, `initial-1`, …, `initial-step+1` |
| StackTraces.EarliestMin | testful/src/testful/coverage/fault/Fault.java:171-173 | the rotation offset lies in `[0, step)` |
| StackTraces.EarliestMinIsLeast | testful/src/testful/coverage/fault/Fault.java:171-173 | no key is smaller than the chosen one, and every earlier key is strictly greater (earliest on ties) |
| StackTraces.RotationStart | testful/src/testful/coverage/fault/Fault.java:171-173 | the `first` loop computes the earliest smallest key's offset |
| StackTraces.CollapsedShape | testful/src/testful/coverage/fault/Fault.java:175-181 | the collapse has `step+2` frames: the end sentinel, the input frames `initial-first-step+i+1` (all in bounds), then the start sentinel |
| StackTraces.SimplifiedShape | testful/src/testful/coverage/fault/Fault.java:160-187 | `simplify` returns the input unchanged when no pair recurs, otherwise the collapse at the first recurring pair |
| StackTraces.Collapse | testful/src/testful/coverage/fault/Fault.java:175-181 | the array built element by element equals the collapse |
| StackTraces.Bracket | testful/src/testful/coverage/fault/Fault.java:175-179 | the new array is the end sentinel, the copied period in order, then the start sentinel |
| StackTraces.Simplify | testful/src/testful/coverage/fault/Fault.java:160-187 | the nested loops return the simplified stack, and the very same array when nothing recurs |
| StackTraces.TrySteps | testful/src/testful/coverage/fault/Fault.java:166-168 | the step loop finds the first period that recurs at this top frame, or hands the search on to the next lower frame |
| JavaStrings.CompareTo | testful/src/testful/coverage/fault/Fault.java:173 | `compareTo` is 0 exactly on equal strings |
| JavaStrings.CompareToAntisymmetric | testful/src/testful/coverage/fault/Fault.java:173 | swapping the operands negates the result |
| JavaStrings.LessTrichotomy | testful/src/testful/coverage/fault/Fault.java:173 | the order used for the rotation start is strict and total |
| JavaStrings.LessTransitive | testful/src/testful/coverage/fault/Fault.java:173 | the order used for the rotation start is transitive |
| Faults.ProcessedStackCases | testful/src/testful/coverage/fault/Fault.java:106-152 | an empty trace gives an empty stack; otherwise the pruned slice `[base, n)`, simplified exactly for recursion-sensitive faults |
| Faults.CutAbove | testful/src/testful/coverage/fault/Fault.java:115-124 | the `--n` loop computes the upper cut |
| Faults.CutBelow | testful/src/testful/coverage/fault/Fault.java:127-139 | the `base++` loop computes the lower cut |
| Faults.ProcessStackTrace | testful/src/testful/coverage/fault/Fault.java:100-153 | the returned array is the processed stack |
| Faults.CopyRange | testful/src/testful/coverage/fault/Fault.java:141-143 | the copy loop fills a new array with exactly the frames between the two cuts |
| Faults.NewFault | testful/src/testful/coverage/fault/Fault.java:66-79 | the public constructor's fields: names, messages, the processed stack, and cause fields that are both null without a cause |
| Faults.EqualsIsHashInputs | testful/src/testful/coverage/fault/Fault.java:251-267 | `equals` holds iff exception name, stack and cause name are equal |
| Faults.EqualsImpliesSameHash | testful/src/testful/coverage/fault/Fault.java:81-97 | equal faults have equal hash codes |
| Faults.EqualsIgnoresMessages | testful/src/testful/coverage/fault/Fault.java:251-267 | changing the message or the cause message does not change equality |
| Faults.EqualsIsEquivalence | testful/src/testful/coverage/fault/Fault.java:251-267 | `equals` is reflexive, symmetric and transitive |
| Faults.Write | testful/src/testful/coverage/fault/Fault.java:269-295 | `write` emits the stream encoding, and fails with a null pointer when the message or the file name of some frame is null |
| Faults.Read | testful/src/testful/coverage/fault/Fault.java:297-316 | `read` returns the stream decoding, including the failures |
| Faults.ReadFrames | testful/src/testful/coverage/fault/Fault.java:302-304 | the frame loop returns the frame decoding of the stream, failing where it runs out |
| Faults.DecodeEncodeFrames | testful/src/testful/coverage/fault/Fault.java:275-304 | reading `n` frames that all have file names back from their encoding returns them and the rest of the stream |
| Faults.DecodeEncodeCause | testful/src/testful/coverage/fault/Fault.java:282-313 | the cause flags and strings read back as written |
| Faults.ReadWriteRoundTrip | testful/src/testful/coverage/fault/Fault.java:269-316 | with a message, every file name and at most 32767 frames, `read(write(f))` is `f`, messages included |
| Faults.WriteFailsOnNull | testful/src/testful/coverage/fault/Fault.java:269-280 | `write` fails, with a null pointer, exactly when the message or the file name of some frame is null |
| Faults.DecodedFileNamesKnown | testful/src/testful/coverage/fault/Fault.java:302-304 | every frame read from a stream has a file name |
| Faults.ReadFaultIsWritable | testful/src/testful/coverage/fault/Fault.java:269-316 | a fault that `read` returns can always be written again |
| Faults.ReadLongStackFails | testful/src/testful/coverage/fault/Fault.java:274-302 | a stack of 32768 to 65535 frames reads back as a negative length and fails |
| Streams.ShortBits | testful/src/testful/coverage/fault/Fault.java:274 | `writeShort` keeps the value modulo 2^16 |
| Streams.SignedShort | testful/src/testful/coverage/fault/Fault.java:301 | `readShort` returns the signed value in `[-32768, 32767]` congruent to the bits |
| Streams.ShortRoundTrip | testful/src/testful/coverage/fault/Fault.java:274-301 | a value survives write/read as a short iff it lies in `[-32768, 32767]` |
| RemoteClassLoading.CanUseSystemClassLoader | testful/src/testful/runner/RemoteClassLoader.java:84-98 | the four table loops compute the routing decision |
| RemoteClassLoading.ScanNames | testful/src/testful/runner/RemoteClassLoader.java:85-89 | an exact-name table loop answers true exactly when the name is listed |
| RemoteClassLoading.ScanPrefixes | testful/src/testful/runner/RemoteClassLoader.java:91-95 | a prefix table loop answers true exactly when some listed prefix starts the name |
| RemoteClassLoading.RoutingPriority | testful/src/testful/runner/RemoteClassLoader.java:84-98 | exact system list, then exact remote list, then system prefixes, then remote prefixes, else system |
| RemoteClassLoading.RemoteClassesAreRemote | testful/src/testful/runner/RemoteClassLoader.java:46-98 | every listed remote class is loaded remotely |
| RemoteClassLoading.RemotePackagesAreRemote | testful/src/testful/runner/RemoteClassLoader.java:79-98 | names under the Abstractor or jexl prefixes are loaded remotely |
| RemoteClassLoading.OperationResultIsSystem | testful/src/testful/runner/RemoteClassLoader.java:74-98 | names with the `testful.model.OperationResult` prefix are system-loaded unless listed as remote classes |
| RemoteClassLoading.OperationResultTestExecutorIsRemote | testful/src/testful/runner/RemoteClassLoader.java:60-98 | the one listed name with that prefix is loaded remotely |
| RemoteClassLoading.IdGenerator.constructor | testful/src/testful/runner/RemoteClassLoader.java:100 | the id counter starts at 0 |
| RemoteClassLoading.RemoteClassLoader.constructor | testful/src/testful/runner/RemoteClassLoader.java:107-115 | a new loader takes the next id and bumps the counter, keeps the finder and its key, and starts with nothing loaded |
| RemoteClassLoading.RemoteClassLoader.GetNew | testful/src/testful/runner/RemoteClassLoader.java:117-119 | the fork is fresh, shares finder and key, has an empty cache, and has a strictly larger id |
| RemoteClassLoading.RemoteClassLoader.FindClass | testful/src/testful/runner/RemoteClassLoader.java:134-160 | a transport failure gives "Cannot retrieve the class" with time unchanged; otherwise time grows by the fetch time; missing data gives "Cannot find class"; data adds exactly `name` to `loaded` |
| RemoteClassLoading.RemoteClassLoader.LoadClass | testful/src/testful/runner/RemoteClassLoader.java:126-160 | system-routed or already-loaded names are delegated without a fetch and change nothing; any other name is fetched as `findClass` does, with its two `ClassNotFound` messages, the time kept on a transport failure and increased by the fetch otherwise, and the name defined, once, only when bytes came back |
| RemoteClassLoading.RemoteClassLoader.GetLoadingTime | testful/src/testful/runner/RemoteClassLoader.java:169-178 | returns the accumulated time and resets it to 0 |
| MutationExecution.NextSetBit | testful/src/testful/mutation/MutationExecutionManager.java:159 | the least set index at or after `from`, or -1 when there is none |
| MutationExecution.Range | testful/src/testful/mutation/MutationExecutionManager.java:149-153 | `set(lo, hi)` covers exactly `[lo, hi)` |
| MutationExecution.NotExecutedComplement | testful/src/testful/mutation/MutationExecutionManager.java:148-153 | within `[1, maxMutations]` the not-executed set is the complement of the executed one, and all of it when that set is unreadable; outside, it equals the executed set |
| MutationExecution.ClassResultExists | testful/src/testful/mutation/MutationExecutionManager.java:111-192 | a class gets a result iff reflection succeeds, the last pre-discovery run has no fault, `maxMutations >= 0` and the executed set is readable |
| MutationExecution.ClassResultClassifies | testful/src/testful/mutation/MutationExecutionManager.java:155-179 | each executed mutant is alive with its time iff it finished with `t >= 0`, killed iff `t < 0` and `t` is not the error marker, never both; a mutant that threw is in neither |
| MutationExecution.BudgetFromLastRun | testful/src/testful/mutation/MutationExecutionManager.java:133-156 | the budget is `5*T+500` with `T` the verified run's time after a fault-free plain run, else the plain run's time |
| MutationExecution.CovsAfterKeys | testful/src/testful/mutation/MutationExecutionManager.java:90-96 | the coverage gains exactly the classes that produced a result; a class without one does not stop the later ones |
| MutationExecution.MutationExecutionManager.constructor | testful/src/testful/mutation/MutationExecutionManager.java:51-61 | the tracker data has length `input+1`, slot 0 is empty and `trackerData[i+1] = input[i]`; the coverage starts empty |
| MutationExecution.MutationExecutionManager.RunTest | testful/src/testful/mutation/MutationExecutionManager.java:112 | a run leaves its time and fault count in the inherited fields |
| MutationExecution.MutationExecutionManager.ExecuteMutantsOnSingleClass | testful/src/testful/mutation/MutationExecutionManager.java:99-193 | the staged protocol returns the class result; a null result runs no mutant and leaves slot 0 as it was, and failed reflection leaves the last run's time and faults; the test ends verify-instrumented after a fault-free plain run; mutants are visited once each in increasing order, the last one left in slot 0 with the budget |
| MutationExecution.MutationExecutionManager.Sweep | testful/src/testful/mutation/MutationExecutionManager.java:159-183 | the `nextSetBit` loop visits every executed mutant once in increasing order and builds its classification; slot 0 is untouched when no mutant was executed |
| MutationExecution.MutationExecutionManager.ReallyExecute | testful/src/testful/mutation/MutationExecutionManager.java:88-97 | every class is processed in turn and only non-null results are added to the coverage |
| DefExposition.QualityNonNegative | testful/src/testful/coverage/whiteBox/CoverageDefExp.java:59-63 | quality is never negative |
| DefExposition.QualityMonotone | testful/src/testful/coverage/whiteBox/CoverageDefExp.java:59-81 | a map covering another has at least its quality |
| DefExposition.CoversPreorder | testful/src/testful/coverage/whiteBox/CoverageDefExp.java:66-81 | per-key superset is reflexive and transitive |
| DefExposition.SingletonQuality | testful/src/testful/coverage/whiteBox/CoverageDefExp.java:59-63 | a one-key map's quality is the size of its set |
| DefExposition.MergeCovers | testful/src/testful/coverage/whiteBox/CoverageDefExp.java:66-112 | after a merge, the map covers both operands, `contains(other)` holds, and quality has not decreased |
| DefExposition.MergeIsLeast | testful/src/testful/coverage/whiteBox/CoverageDefExp.java:99-112 | the merge is the least map covering both operands |
| DefExposition.MergeCovered | testful/src/testful/coverage/whiteBox/CoverageDefExp.java:99-112 | merging something already covered changes nothing |
| DefExposition.MergeIdempotent | testful/src/testful/coverage/whiteBox/CoverageDefExp.java:99-112 | merging the same map twice equals merging once |
| DefExposition.MergeCommutative | testful/src/testful/coverage/whiteBox/CoverageDefExp.java:99-112 | the merged map does not depend on operand order |
| DefExposition.MergeEmpty | testful/src/testful/coverage/whiteBox/CoverageDefExp.java:84-112 | merging the empty coverage changes nothing |
| DefExposition.ContainsReflexive | testful/src/testful/coverage/whiteBox/CoverageDefExp.java:66-81 | a coverage contains itself |
| DefExposition.DecodeEncodeIds | testful/src/testful/coverage/whiteBox/CoverageDefExp.java:137-160 | the `(id, context)` pairs read back as the written set |
| DefExposition.DecodeEncodeEntries | testful/src/testful/coverage/whiteBox/CoverageDefExp.java:133-162 | the entries read back are put into the map in written order |
| DefExposition.PutsLookup | testful/src/testful/coverage/whiteBox/CoverageDefExp.java:162 | after putting distinct keys, each key maps to its read set and other keys keep their value |
| DefExposition.ReadWriteRoundTrip | testful/src/testful/coverage/whiteBox/CoverageDefExp.java:129-164 | reading `writeExternal`'s output into an empty map restores quality and map |
| DefExposition.WriteIds | testful/src/testful/coverage/whiteBox/CoverageDefExp.java:136-140 | the id loop writes the set's size and every element once |
| DefExposition.ReadIds | testful/src/testful/coverage/whiteBox/CoverageDefExp.java:157-160 | the id loop reads the value set as decoded |
| DefExposition.DefExpoMap.AddAll | testful/src/testful/coverage/whiteBox/CoverageDefExp.java:101-108 | each key's set becomes the union of old and new; other keys are untouched; new keys are added |
| DefExposition.CoverageDefExp.constructor | testful/src/testful/coverage/whiteBox/CoverageDefExp.java:53-57 | wraps the given map and sets quality to its sum of set sizes |
| DefExposition.CoverageDefExp.Empty | testful/src/testful/coverage/whiteBox/CoverageDefExp.java:49-51 | empty map, quality 0 |
| DefExposition.CoverageDefExp.UpdateQuality | testful/src/testful/coverage/whiteBox/CoverageDefExp.java:59-63 | the loop sets quality to the sum of set sizes |
| DefExposition.CoverageDefExp.Contains | testful/src/testful/coverage/whiteBox/CoverageDefExp.java:66-81 | false for another kind or a lower quality; otherwise true iff every key of the other is present with a superset |
| DefExposition.CoverageDefExp.CreateEmpty | testful/src/testful/coverage/whiteBox/CoverageDefExp.java:84-86 | a fresh empty coverage of quality 0 |
| DefExposition.CoverageDefExp.Merge | testful/src/testful/coverage/whiteBox/CoverageDefExp.java:99-112 | another kind is ignored; otherwise the map becomes the per-key union and quality is recomputed |
| DefExposition.CoverageDefExp.WriteExternal | testful/src/testful/coverage/whiteBox/CoverageDefExp.java:129-143 | writes quality, entry count, then each entry in the map's iteration order |
| DefExposition.CoverageDefExp.ReadExternal | testful/src/testful/coverage/whiteBox/CoverageDefExp.java:149-164 | reads quality from the stream and puts the decoded entries into the existing map; a negative id count fails |
| DefExposition.CoverageDefExp.Clone | testful/src/testful/coverage/whiteBox/CoverageDefExp.java:94-96 | as written: the clone shares the original's map |
| DefExposition.CoverageDefExp.CloneDeep | testful/src/testful/coverage/whiteBox/CoverageDefExp.java:94-96 | corrected: the clone has its own map with equal contents and quality |
| DefExposition.CloneThenMergeCorruptsOriginal | testful/src/testful/coverage/whiteBox/CoverageDefExp.java:94-112 | merging into a `clone()` changes the original's map and leaves its quality stale |
| DefExposition.CloneDeepThenMergeKeepsOriginal | testful/src/testful/coverage/whiteBox/CoverageDefExp.java:94-112 | merging into a deep clone leaves the original unchanged and consistent |
| MutationScore.MergeCovsShape | testful/src/testful/mutation/MutationCoverage.java:35-90 | merge yields the union of keys; old-only keys keep their single; others get `add`'s merge |
| MutationScore.IncludesIrreflexive | testful/src/testful/mutation/MutationCoverage.java:66-81 | no coverage contains itself |
| MutationScore.IncludesIgnoresExtraClasses | testful/src/testful/mutation/MutationCoverage.java:71-78 | classes only in the argument are not checked |
| MutationScore.MergeKeepsKilled | testful/src/testful/mutation/MutationCoverage.java:58-90 | when single merges do not lose kills, merging does not decrease the killed total |
| MutationScore.EncodeCovsAppend | testful/src/testful/mutation/MutationCoverage.java:119-122 | each further class appends its name and single |
| MutationScore.DecodeEncodeCovs | testful/src/testful/mutation/MutationCoverage.java:119-139 | the pairs read back are put into the map |
| MutationScore.ReadWriteRoundTrip | testful/src/testful/mutation/MutationCoverage.java:116-140 | with at most 32767 classes, reading the written stream into an empty map restores it |
| MutationScore.ReadLongMapReadsNothing | testful/src/testful/mutation/MutationCoverage.java:117-132 | a map of 32768 to 65535 classes reads back as a negative count, so nothing is read |
| MutationScore.MutationCoverage.constructor | testful/src/testful/mutation/MutationCoverage.java:31-33 | an empty coverage |
| MutationScore.MutationCoverage.Add | testful/src/testful/mutation/MutationCoverage.java:35-42 | a new name stores the empty single merged with `cov`; an existing one merges `cov` in; other names are unchanged |
| MutationScore.MutationCoverage.CreateEmpty | testful/src/testful/mutation/MutationCoverage.java:45-47 | a fresh empty coverage |
| MutationScore.MutationCoverage.GetQuality | testful/src/testful/mutation/MutationCoverage.java:50-56 | the sum of single qualities over the class count (NaN when empty) |
| MutationScore.MutationCoverage.GetKilled | testful/src/testful/mutation/MutationCoverage.java:58-64 | the sum of the killed counts |
| MutationScore.MutationCoverage.Contains | testful/src/testful/mutation/MutationCoverage.java:66-81 | false for another kind or unless strictly more classes; then true iff every common class's single contains the other's |
| MutationScore.MutationCoverage.Merge | testful/src/testful/mutation/MutationCoverage.java:84-90 | another kind is ignored; otherwise every entry of the other is added |
| MutationScore.MutationCoverage.Clone | testful/src/testful/mutation/MutationCoverage.java:103-110 | a fresh coverage with a copy of every single |
| MutationScore.MutationCoverage.WriteExternal | testful/src/testful/mutation/MutationCoverage.java:116-123 | writes the count as a short, then `(name, single)` in the map's iteration order |
| MutationScore.MutationCoverage.ReadExternal | testful/src/testful/mutation/MutationCoverage.java:129-140 | reads the count and puts each pair into the map, as decoded; when the stream fails partway, the pairs read before the failure stay in the map |
| MutationScore.PutsReadAgrees | testful/src/testful/mutation/MutationCoverage.java:129-140 | on a successful read the map left behind is the decoded map |
| MutationScore.PutsReadKeepsKeys | testful/src/testful/mutation/MutationCoverage.java:129-140 | reading, even when it fails, never removes a class already in the map |
| MapSums.SumOverSubset | testful/src/testful/coverage/whiteBox/CoverageDefExp.java:59-63 | a sum of non-negative terms over fewer keys is not larger |
| MapSums.SumOverPointwise | testful/src/testful/coverage/whiteBox/CoverageDefExp.java:59-63 | pointwise larger terms give a larger sum |

## Left out

- JVM class definition (`defineClass`) is not modelled: a fetched class is recorded by name in `loaded` and in a ghost definition log. The `synchronized` locking, the RMI transport and `getFinder`/`toString`/`clone` of the loader are also out.
- Wall-clock time: each fetch's `end - start` is an `elapsed` parameter of `FindClass`/`LoadClass`.
- Running tests and mutants is out: `super.reallyExecute`, `MutationExecutionManagerSingle.execute`, the reflective lookup of config fields and selector fields, and `OperationResult.insert`/`insertOperationResultVerifier`. Each mutated class is a `ClassUnderMutation` value holding oracles: a test run per selector and instrumentation, the executed set (`None` when unreadable), and a mutant run per index and budget.
- The reflective failures before the first run are one flag, `reflectionOk`. The `stopOnBug` flag, the `reloadClasses` fork of the loader (`getNew`, whose result the source leaves unused) and logging are not modelled.
- Exceptions thrown while running one mutant are the `Threw` outcome; the model stores nothing for that mutant and continues.
- `ERROR_EXECUTION` is defined in `MutationExecutionManagerSingle`, which is not part of this model. It is the constructor parameter `errorExecution`.
- `MutationCoverageSingle` is not part of this model. In `MutationScore` it is abstract, given by its `createEmpty`/`merge`/`contains`/`quality`/`killedNum` as a `SingleOps` value. In `MutationExecution` it is the record of `setKilled`/`setAlive` calls (`MutantRecord`).
- `Stack` and `ContextualId` internals, `Stack.write`/`Stack.read` and the single's own `writeExternal` are out: they are single object tokens in the stream.
- The byte-level `DataOutput` encoding is out: the UTF length limit, and a typed read that meets a token of another type, which is treated as end of stream.
- `MutationScore.MutationCoverage.GetQuality`: Java `float` arithmetic is modelled with `real`, and the empty map's `0/0` as the value `NaN`.
- Faults.HashCode: Java `int` wrap-around and `String.hashCode` are not modelled; the hash is an unbounded integer built from the same three inputs as `equals`.
- Java `int`/`long` overflow elsewhere is not modelled: every `int` or `long` sum, product and counter is an unbounded integer (for example `5*T+500`, the `time` counter, the id counter, `valueSize*3/2` in `readExternal`, the killed total of `getKilled` and the quality sum of `updateQuality`). `StackTraceElement.toString` is the `key` parameter.
- JavaStrings.CompareTo: Java's `compareTo` compares UTF-16 code units, the model compares Unicode scalar values. The sign differs when a supplementary character (above U+FFFF) meets a character in U+E000..U+FFFF, and such keys may then pick a different rotation start in `simplify`.
- `fault.fillInStackTrace()` on an empty trace changes the exception, not the fault. It is not modelled.
- DefExposition.CoverageDefExp.ReadExternal: on a failing stream, the map and quality the source leaves half-updated are not specified.
- DefExposition.CoverageDefExp.WriteExternal and MutationScore.MutationCoverage.WriteExternal: the map's iteration order is unknown, and is returned as a ghost `order` that lists each key once.
- Faults.EqualsIsHashInputs, Faults.EqualsImpliesSameHash, Faults.EqualsIgnoresMessages, Faults.EqualsIsEquivalence: they follow from the definitions with no further proof.

## Findings

| source | as written | input that shows it | evidently intended | confidence | as-written member | corrected member |
|---|---|---|---|---|---|---|
| testful/src/testful/coverage/whiteBox/CoverageDefExp.java:94-96 | `clone()` builds the copy around the same `defExpo` map object | clone a coverage with an empty map, then merge `{0 ↦ {(7, 0)}}` into the clone: the original's map gains the entry while its quality stays 0 | the clone owns a copy of the map, so merging into it leaves the original unchanged | not executed | DefExposition.CloneThenMergeCorruptsOriginal | DefExposition.CloneDeepThenMergeKeepsOriginal |
