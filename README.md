# Oleaster-Robolectric: the runner's decisions and its per-spec run protocol

Oleaster-Robolectric runs Oleaster specs (`describe`/`it` blocks) inside a Robolectric sandbox.
The runner has two parts. `RoboOleaster` builds the sandbox for a test class. The
`OleasterRobolectricRunner` is loaded inside that sandbox and runs the
specs. Most of both classes is glue that calls into Robolectric and JUnit. This project models the
part that is the repository's own logic:

- **`RoboOleaster`, as module `RoboOleaster`** (file `robo_oleaster.dfy`):
  - which `@Config` applies, and which SDK version the sandbox runs;
  - which manifest factory is chosen in which build environment;
  - the static get-or-create manifest cache;
  - the memoised choice of the dependency resolver that fetches the Android jars.
- **The shared caches, as module `Caches`** (file `caches.dfy`):
  - a map-backed get-or-create cache whose ghost record of built keys shows that each key is built at most once;
  - a lazily built value.
- **`OleasterRobolectricRunner`, as module `OleasterRunner`** (file `oleaster_runner.dfy`):
  - the wrapping of specs into `RoboSpec`s;
  - the per-spec protocol of `runChild`, `afterTest` and `finallyAfterTest`;
  - the two static resource-table caches.

Host objects are opaque types in module `Host` (file `host.dfy`). The model only stores, compares and
passes them on. These are class loaders, threads, the hooks interface
(`ParallelUniverseInterface`), test lifecycles, SDK configs, resource tables, manifest
identifiers and manifest files. What the host environment reports is an input datatype:
- whether a properties resource is on the classpath and loads;
- system properties;
- whether a directory exists or can be made;
- whether `beforeTest`, one of the callbacks, `tearDownApplication` or the static reset of `afterTest` throws;
- the main thread that the host calls of `beforeTest` and `afterTest` leave.

The hooks that `runChild` calls are recorded as `Event`s appended to the `trace` field of a
`Process` object. The same object holds the thread's context class loader and the simulated Android main
thread as fields. Two independent specifications characterise the trace of one run:
- `Happens`, a per-event table of which hooks fire in a given `Situation`. `RunChildEventsHappen` proves that the trace holds exactly those events.
- `Rank`, the phase each event belongs to. `RunChildEventsInPhaseOrder` proves that the trace is strictly increasing in rank, so no event repeats and the phases never interleave.

Together these two fix the trace completely. `RunChild` is proved to append exactly `RunChildEvents` of its situation, and its contract states the thread state and the spec's per-test fields in each of the five ways a run can end:
- it completes;
- it fails on the null hooks interface;
- a callback throws;
- tearDown throws;
- the static reset, which runs in a `finally` block after tearDown, throws. Its exception replaces tearDown's.

When afterTest throws, runChild skips finallyAfterTest and the restore of the context class loader.

runChild has no `try`/`finally` around the callbacks (lines 282-298). So an exception from a callback skips several steps:
- restoring the main thread;
- afterTest and finallyAfterTest;
- restoring the class loader.

In that case the model leaves the current thread as the main thread and the sandbox's loader as the context class loader.

Spec equality: runChild looks up the `RoboSpec` object itself in its suite's spec list with `indexOf` (lines 269-270). That list holds the specs the `RoboSpec`s were copied from; the copy is made by `super(spec)` at line 330. Which element the lookup finds therefore depends on Oleaster's `Spec.equals`, which is not part of this model. The model assumes that `Spec.equals` identifies a `RoboSpec` with the spec it copies. It looks up the copied spec (`RoboSpec.spec`), compared by value on its description and block.

## Model

| member | source | states |
|---|---|---|
| Caches.GetOrCreate | oleaster-robolectric/src/main/java/org/robolectric/internal/RoboOleaster.java:206-215 | after a lookup the key maps to the returned value; a hit returns the cached value and leaves the map as it was; a miss returns `create(key)` and adds exactly that key; every entry already present keeps its value |
| Caches.GetOrCreateIdempotent | oleaster-robolectric/src/main/java/org/robolectric/internal/RoboOleaster.java:208-214 | a second lookup of the same key returns the first lookup's value and changes nothing, whatever its `create` would build |
| Caches.GetOrCreateCache.constructor | oleaster-robolectric/src/main/java/org/robolectric/internal/RoboOleaster.java:63 | a new static cache is empty, and no key has been built |
| Caches.GetOrCreateCache.Get | oleaster-robolectric/src/main/java/com/mscharhag/oleaster/runner/OleasterRobolectricRunner.java:207-213 | the new map is the one `GetOrCreate` gives; a key is added to the record of built keys only on a miss; the invariant (each key built at most once, exactly the built keys cached) is kept |
| Caches.LazyValue.Get | oleaster-robolectric/src/main/java/com/mscharhag/oleaster/runner/OleasterRobolectricRunner.java:84-89 | a set field is returned unchanged; an unset field is built once and keeps the built value; the value is never built more than once |
| Caches.LazyValue.constructor | oleaster-robolectric/src/main/java/com/mscharhag/oleaster/runner/OleasterRobolectricRunner.java:60 | a new static field holds no value, and nothing has been built |
| RoboOleaster.PickSdkVersion | oleaster-robolectric/src/main/java/org/robolectric/internal/RoboOleaster.java:242-252 | an error exactly when a config has more than one sdk value; a single sdk value is the version; otherwise the manifest's target SDK, or the fallback version without a manifest |
| RoboOleaster.SingleSdkValueIgnoresManifest | oleaster-robolectric/src/main/java/org/robolectric/internal/RoboOleaster.java:245-246 | with one sdk value the result is that value whatever the manifest is |
| RoboOleaster.GetConfig | oleaster-robolectric/src/main/java/org/robolectric/internal/RoboOleaster.java:258-265 | the class's `@Config` when it has one, else a config with no sdk values and `constants = Void` |
| RoboOleaster.UnannotatedClassRunsAtTargetSdk | oleaster-robolectric/src/main/java/org/robolectric/internal/RoboOleaster.java:73-78 | the constructor's chain `getConfig`, then `pickSdkVersion` with the cached manifest, runs an unannotated test class at its manifest's target SDK |
| RoboOleaster.GetBuildSystemApiProperties | oleaster-robolectric/src/main/java/org/robolectric/internal/RoboOleaster.java:98-111 | properties exactly when the resource is on the classpath and loads, and then the loaded ones |
| RoboOleaster.GetManifestFactory | oleaster-robolectric/src/main/java/org/robolectric/internal/RoboOleaster.java:225-240 | each of the four factories is chosen exactly under its condition in the priority order: loaded build-system properties (which it carries), then Buck, then a non-`Void` constants class (Gradle), else Maven |
| RoboOleaster.GetAppManifest | oleaster-robolectric/src/main/java/org/robolectric/internal/RoboOleaster.java:202-216 | the identifier of the chosen factory maps to the returned manifest; a hit returns the cached manifest and changes nothing; a miss creates the manifest with that factory and adds only that entry; the cache invariant is kept |
| RoboOleaster.GetAppManifestTwice | oleaster-robolectric/src/main/java/org/robolectric/internal/RoboOleaster.java:206-215 | two calls with the same configuration return the same manifest, and at most one manifest is created |
| RoboOleaster.BaseJarResolver | oleaster-robolectric/src/main/java/org/robolectric/internal/RoboOleaster.java:269-284 | local resolver (on the given or default directory) exactly when offline; a one-day cached Maven resolver under the temp directory exactly when online and the cache directory exists or can be made; the plain Maven resolver otherwise |
| RoboOleaster.FirstJarResolver | oleaster-robolectric/src/main/java/org/robolectric/internal/RoboOleaster.java:286-296 | an error naming the resource URL exactly when robolectric-deps.properties is found but cannot be read; otherwise the base resolver, wrapped in a properties resolver on the URL's file path when the resource is found |
| RoboOleaster.DependencyResolverSlot.constructor | oleaster-robolectric/src/main/java/org/robolectric/internal/RoboOleaster.java:68 | the transient resolver field starts out null |
| RoboOleaster.DependencyResolverSlot.GetJarResolver | oleaster-robolectric/src/main/java/org/robolectric/internal/RoboOleaster.java:267-300 | a set field is returned unchanged whatever the environment now says; the first call returns `FirstJarResolver`; the field is then set, to the base resolver when reading the properties file failed |
| OleasterRunner.IndexOf | oleaster-robolectric/src/main/java/com/mscharhag/oleaster/runner/OleasterRobolectricRunner.java:269-270 | -1 exactly when the element is absent; otherwise a position holding it with no earlier occurrence |
| OleasterRunner.FiresBeforeCallbacks | oleaster-robolectric/src/main/java/com/mscharhag/oleaster/runner/OleasterRobolectricRunner.java:268-269 | the condition `suiteHasNoSpecs || isFirstSpec` under which line 282 calls the before-callbacks; `FiresBeforeCallbacksIff` characterises it |
| OleasterRunner.FiresAfterCallbacks | oleaster-robolectric/src/main/java/com/mscharhag/oleaster/runner/OleasterRobolectricRunner.java:268-270 | the condition `suiteHasNoSpecs || isLastSpec` under which line 296 calls the after-callbacks; `FiresAfterCallbacksIff` characterises it |
| OleasterRunner.FiresBeforeCallbacksIff | oleaster-robolectric/src/main/java/com/mscharhag/oleaster/runner/OleasterRobolectricRunner.java:268-269 | the before-callbacks fire exactly when the suite has no specs or the spec is its first |
| OleasterRunner.FiresAfterCallbacksIff | oleaster-robolectric/src/main/java/com/mscharhag/oleaster/runner/OleasterRobolectricRunner.java:268-270 | the after-callbacks fire exactly when the suite has no specs or the spec is last and occurs nowhere earlier |
| OleasterRunner.SingleSpecSuiteFiresBoth | oleaster-robolectric/src/main/java/com/mscharhag/oleaster/runner/OleasterRobolectricRunner.java:268-270 | the only spec of a suite fires both the before- and the after-callbacks |
| OleasterRunner.UnlistedSpecFiresNeither | oleaster-robolectric/src/main/java/com/mscharhag/oleaster/runner/OleasterRobolectricRunner.java:268-270 | a spec missing from its non-empty suite's list fires neither |
| OleasterRunner.DistinctSuiteFiresOnce | oleaster-robolectric/src/main/java/com/mscharhag/oleaster/runner/OleasterRobolectricRunner.java:268-270 | in a suite of distinct specs the spec at position i fires the before-callbacks exactly when i is 0 and the after-callbacks exactly when i is the last position |
| OleasterRunner.RunChildEvents | oleaster-robolectric/src/main/java/com/mscharhag/oleaster/runner/OleasterRobolectricRunner.java:272-302 | every run starts by calling beforeTest; the rest is nothing without a hooks interface, the callbacks and body up to and including a throwing callback, or the callbacks, the body and afterTest |
| OleasterRunner.RunChildEventsHappen | oleaster-robolectric/src/main/java/com/mscharhag/oleaster/runner/OleasterRobolectricRunner.java:272-302 | a run's trace holds exactly the events `Happens` allows in its situation |
| OleasterRunner.HappensByPhase | oleaster-robolectric/src/main/java/com/mscharhag/oleaster/runner/OleasterRobolectricRunner.java:272-302 | an event happens exactly when it belongs to beforeTest, to the callbacks and body as far as the run gets before a throwing callback, or to afterTest when no callback throws |
| OleasterRunner.BeforeTestEvents | oleaster-robolectric/src/main/java/com/mscharhag/oleaster/runner/OleasterRobolectricRunner.java:272-276 | beforeTest, then its failure when it throws; `BeforeTestEventsFacts` states its members and order |
| OleasterRunner.SpecEvents | oleaster-robolectric/src/main/java/com/mscharhag/oleaster/runner/OleasterRobolectricRunner.java:282-298 | the callbacks and body of the spec under the sandbox's loader and the current thread; `SpecEventsFacts` states its members and order |
| OleasterRunner.AfterTestEvents | oleaster-robolectric/src/main/java/com/mscharhag/oleaster/runner/OleasterRobolectricRunner.java:228-249 | tearDown under the main thread restored at line 300, the static reset, then finallyAfterTest unless tearDown or the reset threw; `AfterTestEventsFacts` states its members and order |
| OleasterRunner.BeforeTestEventsFacts | oleaster-robolectric/src/main/java/com/mscharhag/oleaster/runner/OleasterRobolectricRunner.java:272-276 | beforeTest is always recorded and its failure only when it throws, in that order |
| OleasterRunner.SpecEventsFacts | oleaster-robolectric/src/main/java/com/mscharhag/oleaster/runner/OleasterRobolectricRunner.java:282-298 | the middle of a run holds the callbacks that fire for the spec's position, and either before-each, leaf and after-each (with a block) or the ignore notice (without one), each once and in phase order |
| OleasterRunner.CallbackEventsFacts | oleaster-robolectric/src/main/java/com/mscharhag/oleaster/runner/OleasterRobolectricRunner.java:282-298 | the same, for any choice of the two callback flags and of the block |
| OleasterRunner.BlockEventsFacts | oleaster-robolectric/src/main/java/com/mscharhag/oleaster/runner/OleasterRobolectricRunner.java:286-293 | a block runs before-each, leaf and after-each in that order; a missing block gives the ignore notice alone |
| OleasterRunner.AfterTestEventsFacts | oleaster-robolectric/src/main/java/com/mscharhag/oleaster/runner/OleasterRobolectricRunner.java:228-249 | tearDown and the static reset are always recorded, in that order; finallyAfterTest only when neither of them threw |
| OleasterRunner.CallbackFailsIff | oleaster-robolectric/src/main/java/com/mscharhag/oleaster/runner/OleasterRobolectricRunner.java:282-298 | a callback of the run throws exactly when the throwing callback is one whose event the run's middle contains |
| OleasterRunner.UpToFacts | oleaster-robolectric/src/main/java/com/mscharhag/oleaster/runner/OleasterRobolectricRunner.java:282-298 | cutting the middle of a run at a throwing callback keeps a prefix that ends with that callback, whose events are exactly those of rank up to the callback's, still in phase order |
| OleasterRunner.ThrowingCallbackEndsRun | oleaster-robolectric/src/main/java/com/mscharhag/oleaster/runner/OleasterRobolectricRunner.java:282-303 | when a callback throws, its event is the last of the run, and neither tearDown, nor the static reset, nor finallyAfterTest occurs |
| OleasterRunner.UncalledCallbackCannotThrow | oleaster-robolectric/src/main/java/com/mscharhag/oleaster/runner/OleasterRobolectricRunner.java:282-298 | a throwing callback that the run does not call leaves the run as it is when no callback throws |
| OleasterRunner.RunChildOutcome | oleaster-robolectric/src/main/java/com/mscharhag/oleaster/runner/OleasterRobolectricRunner.java:278-303 | a run fails on the null hooks interface exactly when beforeTest left none. Given one, it fails with a callback's exception exactly when a callback it calls throws. Otherwise it fails with the static reset's exception exactly when the reset throws, and with tearDown's exactly when only tearDown throws. It completes exactly when none of these throws |
| OleasterRunner.RunChildEventsInPhaseOrder | oleaster-robolectric/src/main/java/com/mscharhag/oleaster/runner/OleasterRobolectricRunner.java:272-302 | the events of a run come in strictly increasing phase: beforeTest, before-callbacks, the block or its ignore notice, after-callbacks, tearDown, static reset, finallyAfterTest; a run cut short by a callback keeps that order |
| OleasterRunner.BlockDecidesBody | oleaster-robolectric/src/main/java/com/mscharhag/oleaster/runner/OleasterRobolectricRunner.java:286-293 | with a block, nothing is ignored; before-each, the leaf and after-each each occur exactly when no earlier callback threw; and each precedes the next. Without a block, neither callback nor leaf occurs, and the ignore notice occurs at most once, exactly when the before-callbacks did not throw |
| OleasterRunner.BeforeTestFailureIsSwallowed | oleaster-robolectric/src/main/java/com/mscharhag/oleaster/runner/OleasterRobolectricRunner.java:272-276 | once the spec has a hooks interface, a failing beforeTest only adds its failure event; the rest of the run is the same as after a successful beforeTest |
| OleasterRunner.RoboSpec.constructor | oleaster-robolectric/src/main/java/com/mscharhag/oleaster/runner/OleasterRobolectricRunner.java:325-334 | a RoboSpec carries the spec, manifest, SDK config and config it is given, with no lifecycle and no hooks interface |
| OleasterRunner.OleasterRobolectricRunner.constructor | oleaster-robolectric/src/main/java/com/mscharhag/oleaster/runner/OleasterRobolectricRunner.java:66-78 | a runner keeps the sandbox's class loader and SDK config, the config and the manifest it is given |
| OleasterRunner.OleasterRobolectricRunner.GetChildren | oleaster-robolectric/src/main/java/com/mscharhag/oleaster/runner/OleasterRobolectricRunner.java:251-259 | one new RoboSpec per parent spec, same length and order; element i wraps parent spec i with this runner's manifest, SDK config and config, and has no per-test objects yet; every RoboSpec is freshly allocated and all are distinct objects |
| OleasterRunner.OleasterRobolectricRunner.BeforeTest | oleaster-robolectric/src/main/java/com/mscharhag/oleaster/runner/OleasterRobolectricRunner.java:92-127 | the hooks interface is assigned unless getting it throws; the lifecycle is assigned after it unless that step throws; the main thread is whatever the later host calls leave, and unchanged when beforeTest stops before them; the method reports the throw |
| OleasterRunner.OleasterRobolectricRunner.AfterTest | oleaster-robolectric/src/main/java/com/mscharhag/oleaster/runner/OleasterRobolectricRunner.java:228-242 | tearDown runs under the main thread in effect. The static state is reset after it even when tearDown throws. afterTest throws exactly when tearDown or the reset throws. The main thread is whatever those host calls leave |
| OleasterRunner.OleasterRobolectricRunner.FinallyAfterTest | oleaster-robolectric/src/main/java/com/mscharhag/oleaster/runner/OleasterRobolectricRunner.java:244-249 | the spec's lifecycle and hooks interface become null, and nothing else of the spec changes |
| OleasterRunner.OleasterRobolectricRunner.RunCallback | oleaster-robolectric/src/main/java/com/mscharhag/oleaster/runner/OleasterRobolectricRunner.java:283 | a callback is recorded when called, and throws exactly when it is the one that throws |
| OleasterRunner.OleasterRobolectricRunner.RunBlock | oleaster-robolectric/src/main/java/com/mscharhag/oleaster/runner/OleasterRobolectricRunner.java:286-293 | with a block: before-each, the leaf under the thread state in effect, then after-each, cut short after a throwing before-each or after-each; without one: the ignore notice alone, which cannot throw |
| OleasterRunner.OleasterRobolectricRunner.RunCallbacksAndBody | oleaster-robolectric/src/main/java/com/mscharhag/oleaster/runner/OleasterRobolectricRunner.java:282-298 | the run's middle throws exactly when the throwing callback is one it calls; it then appends the middle events up to and including that callback, and otherwise all of them; the leaf runs under the thread state in effect |
| OleasterRunner.OleasterRobolectricRunner.AfterTestThenClear | oleaster-robolectric/src/main/java/com/mscharhag/oleaster/runner/OleasterRobolectricRunner.java:301-302 | afterTest, then finallyAfterTest only when afterTest returned, that is when neither tearDown nor the reset threw. The per-test fields are cleared exactly then, and keep their values otherwise |
| OleasterRunner.OleasterRobolectricRunner.RunChild | oleaster-robolectric/src/main/java/com/mscharhag/oleaster/runner/OleasterRobolectricRunner.java:261-304 | appends exactly the events of its situation and ends with the outcome `RunChildOutcome` gives. On the null hooks interface the main thread is unchanged; after a callback throws it is still the current thread; after afterTest, whether that returns or throws, it is whatever afterTest leaves. Normal completion restores the context class loader and clears the per-test fields. An escaping exception leaves the sandbox's loader installed and the per-test fields as beforeTest left them |
| OleasterRunner.GetAppResourceTable | oleaster-robolectric/src/main/java/com/mscharhag/oleaster/runner/OleasterRobolectricRunner.java:206-214 | the manifest maps to the returned table. A hit returns the cached table, builds nothing, and changes neither the map nor the record of built keys. A miss builds the table, adds only that entry, and records that key as built |
| OleasterRunner.GetCompiletimeSdkResourceTable | oleaster-robolectric/src/main/java/com/mscharhag/oleaster/runner/OleasterRobolectricRunner.java:83-90 | the framework table is built on the first call only, and the same table is returned afterwards |

## Left out

- Sandbox and class-loader construction (`getSandbox`, `configureShadows`, `createShadowMap`, `createClassHandler`, `createClassLoaderConfig`, `addInstrumentedPackages`, `getExtraShadows`): these are builder calls into Robolectric's instrumentation API. The sandbox's class loader and SDK config are constructor inputs of `OleasterRobolectricRunner`.
- The reflection delegation of `RoboOleaster.getChildren`, `describeChild` and `runChild`, and `getHooksInterface`: their behaviour is that of the bootstrapped object. `runChild` itself is modelled on the runner class it delegates to.
- `describeChild`, the `RunNotifier` and the `Description`s: `fireTestIgnored` is the `Ignored` event.
- The body of `beforeTest` after the two field assignments: the SDK-config and static-state calls, the `Build.VERSION` fields, the resource tables and `setUpApplicationState`. `BeforeTest` appends one event, and its failure point is an input. The resource-table caches it reads are modelled on their own.
- The body of the spec's block and the callbacks themselves: a trace event stands for each. Which callback throws, if any, is an input. `runLeaf` and `fireTestIgnored` are taken not to throw, because JUnit's `runLeaf` reports a failing test to the notifier instead of throwing.
- The main thread that the host calls of `beforeTest` and `afterTest` leave behind is an input of the run (`HostRun`). The body of those calls is Robolectric's.
- OleasterRunner.OleasterRobolectricRunner.RunChild: `getMainThread` and `setMainThread` on the hooks interface (lines 279, 280 and 300) are assumed not to throw. They read and write the sandbox's main-thread field. The only failure modelled at line 279 is the null hooks interface. The `resetStaticState` call inside `beforeTest` (line 104) is one of `beforeTest`'s failure points, after the lifecycle is assigned.
- I/O and environment reads are inputs of `BuildEnvironment` and `ResolverEnvironment`. This covers the property-file loads, `System.getProperty`, `Boolean.getBoolean`, `File.exists`, `mkdir`, the class-path lookup of robolectric-deps.properties and `Logger`. The resolvers keep the file names as strings. The class-path lookup gives both the resource's URL and its `getFile()` path: the error message names the URL, and the properties resolver reads the path.
- `synchronized` around the manifest cache, the `SecureRandom` static initialiser, and the JVM meaning of a thread's context class loader: concurrency is not modelled. The caches are sequential.
- `identify`, `create`, `buildResourceTable` and `newFrameworkResourceTable` belong to the host factories and are function parameters. A `null` result from them, which the source would cache and later treat as a miss, is not modelled.
- The value of `SdkConfig.FALLBACK_SDK_VERSION` and the defaults of `new Config.Builder().build()` come from Robolectric, which is not part of this model. They are taken as 16 (JELLY_BEAN), and as no sdk values with `constants = Void`. The other attributes of `@Config` (manifest, qualifiers, shadows and the rest) are kept as an uninterpreted map, empty in the default config, since the core only passes them on.
- `getManifestFactory`, `getBuildSystemApiProperties` and `getJarResolver` also appear, with the same code, in OleasterRobolectricRunner.java at lines 136-204. They are modelled once, in module `RoboOleaster`.
- The `RoboOleaster` constructor is modelled only through the chain `UnannotatedClassRunsAtTargetSdk` states. `getTestLifecycleClass` returns a constant class and has no logic to model.
- OleasterRunner.OleasterRobolectricRunner.AfterTest: requires a hooks interface. With a null one the source fails on a null dereference, but `runChild` never calls it that way, because it throws at line 279 first.
- Spec equality: Oleaster's `Spec.equals` is not part of this model. The lookup at lines 269-270 passes the `RoboSpec` object; the model assumes that `Spec.equals` identifies a `RoboSpec` with the spec it copies (line 330), and looks up that spec by value equality on its description and block. If `Spec` kept Java's identity equality, the lookup would find no `RoboSpec` in the suite's list, and only an empty suite would fire the callbacks.
- The sample application and the JUnit and Robolectric comparison tests: they exercise the host runtime and contain no logic of the repository's own.
