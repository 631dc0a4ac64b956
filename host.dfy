/** Values the runner receives from its host runtimes (JUnit, Robolectric, the Android SDK).
    Objects whose behaviour belongs to the host are opaque types: the model only stores,
    compares and passes them on. */
module Host {

  datatype Option<+T> = None | Some(value: T)

  datatype Result<+T, +E> = Ok(value: T) | Err(error: E)

  /** A JVM class loader (the thread's context class loader, the sandbox's loader). */
  type ClassLoader(==, !new)

  /** A JVM thread. */
  type Thread(==, !new)

  /** Robolectric's ParallelUniverseInterface: the hooks into the simulated Android runtime. */
  type Hooks(==)

  /** Robolectric's TestLifecycle instance for one test. */
  type TestLifecycle(==)

  /** Robolectric's SdkConfig of a sandbox. */
  type SdkConfig(==)

  /** A PackageResourceTable. */
  type ResourceTable(==)

  /** Robolectric's ManifestIdentifier: the key under which a manifest is cached. */
  type ManifestIdentifier(==, !new)

  /** The manifest, resource and asset locations an AndroidManifest was read from. */
  type ManifestFiles(==, !new)

  /** A loaded java.util.Properties. */
  type Properties = map<string, string>

  /** The `constants` class of a @Config annotation; `Void` is its default. */
  datatype ConstantsClass = Void | BuildConstants(className: string)

  /** A @Config annotation: the sdk values and constants class the core reads, and the
      remaining attributes (manifest, qualifiers, shadows, ...), which it only passes on. */
  datatype Config = Config(sdk: seq<int>, constants: ConstantsClass, otherAttributes: map<string, string>)

  /** An AndroidManifest, with the target SDK version it declares. */
  datatype AndroidManifest = AndroidManifest(files: ManifestFiles, targetSdkVersion: int)
}
