/** The decisions RoboOleaster makes while it sets up a test class: which @Config applies,
    which SDK version the sandbox runs, which manifest factory reads the manifest, how the
    manifest is cached, and which dependency resolver fetches the Android jars. */
module RoboOleaster {
  import opened Host
  import opened Caches

  // ---------------------------------------------------------------- SDK version

  /** SdkConfig.FALLBACK_SDK_VERSION (Build.VERSION_CODES.JELLY_BEAN). */
  const FallbackSdkVersion: int := 16

  /** The IllegalArgumentException thrown for a @Config with several sdk values. */
  datatype SdkError = MultipleSdkValues

  /** The SDK version of the sandbox: the single @Config.sdk value, else the manifest's
      target SDK, else the fallback; several sdk values are refused. */
  function PickSdkVersion(config: Option<Config>, manifest: Option<AndroidManifest>): (r: Result<int, SdkError>)
    ensures r.Err? <==> config.Some? && |config.value.sdk| > 1
    ensures config.Some? && |config.value.sdk| == 1 ==> r == Ok(config.value.sdk[0])
    ensures (config.None? || config.value.sdk == []) && manifest.Some? ==>
              r == Ok(manifest.value.targetSdkVersion)
    ensures (config.None? || config.value.sdk == []) && manifest.None? ==> r == Ok(FallbackSdkVersion)
  {
    if config.Some? && |config.value.sdk| > 1 then Err(MultipleSdkValues)
    else if config.Some? && |config.value.sdk| == 1 then Ok(config.value.sdk[0])
    else if manifest.Some? then Ok(manifest.value.targetSdkVersion)
    else Ok(FallbackSdkVersion)
  }

  /** A single sdk value decides the version whatever the manifest says. */
  lemma SingleSdkValueIgnoresManifest(config: Config, m1: Option<AndroidManifest>, m2: Option<AndroidManifest>)
    requires |config.sdk| == 1
    ensures PickSdkVersion(Some(config), m1) == PickSdkVersion(Some(config), m2) == Ok(config.sdk[0])
  {
  }

  // ---------------------------------------------------------------- @Config

  /** `new Config.Builder().build()`: no sdk values, `constants = Void.class`, and the
      builder's defaults for every other attribute, none of which the core reads. */
  const DefaultConfig: Config := Config([], Void, map[])

  /** The test class's @Config annotation when it has one, else the default config. */
  function GetConfig(classAnnotation: Option<Config>): (r: Config)
    ensures classAnnotation.Some? ==> r == classAnnotation.value
    ensures classAnnotation.None? ==> r.sdk == [] && r.constants == Void
  {
    match classAnnotation
    case Some(c) => c
    case None => DefaultConfig
  }

  /** A test class without @Config runs at its manifest's target SDK: the constructor passes
      the chosen config and the (never absent) cached manifest to PickSdkVersion. */
  lemma UnannotatedClassRunsAtTargetSdk(manifest: AndroidManifest)
    ensures PickSdkVersion(Some(GetConfig(None)), Some(manifest)) == Ok(manifest.targetSdkVersion)
  {
  }

  // ---------------------------------------------------------------- manifest factory

  /** What loading /com/android/tools/test_config.properties from the classpath gives. */
  datatype PropertiesResource = NotOnClasspath | LoadFails | Loads(properties: Properties)

  /** The build environment getManifestFactory inspects. */
  datatype BuildEnvironment = BuildEnvironment(testConfig: PropertiesResource, isBuck: bool)

  datatype ManifestFactory =
    | DefaultManifestFactory(properties: Properties)
    | BuckManifestFactory
    | GradleManifestFactory
    | MavenManifestFactory

  /** getBuildSystemApiProperties: null when the resource is missing or cannot be read. */
  function GetBuildSystemApiProperties(resource: PropertiesResource): (r: Option<Properties>)
    ensures r.Some? <==> resource.Loads?
    ensures r.Some? ==> r.value == resource.properties
  {
    match resource
    case Loads(p) => Some(p)
    case _ => None
  }

  /** Build-system properties win, then Buck, then a Gradle `constants` class, then Maven. */
  function GetManifestFactory(env: BuildEnvironment, config: Config): (r: ManifestFactory)
    ensures r.DefaultManifestFactory? <==> env.testConfig.Loads?
    ensures r.DefaultManifestFactory? ==> r.properties == env.testConfig.properties
    ensures r.BuckManifestFactory? <==> !env.testConfig.Loads? && env.isBuck
    ensures r.GradleManifestFactory? <==> !env.testConfig.Loads? && !env.isBuck && config.constants != Void
    ensures r.MavenManifestFactory? <==> !env.testConfig.Loads? && !env.isBuck && config.constants == Void
  {
    var properties := GetBuildSystemApiProperties(env.testConfig);
    if properties.Some? then DefaultManifestFactory(properties.value)
    else if env.isBuck then BuckManifestFactory
    else if config.constants != Void then GradleManifestFactory
    else MavenManifestFactory
  }

  // ---------------------------------------------------------------- manifest cache

  /** getAppManifest over the static cache: the chosen factory identifies the manifest, and
      the factory's `create` reads it only when no manifest is cached under that identifier.
      `identify` and `create` stand for the host factories' own methods. */
  method GetAppManifest(
    cache: GetOrCreateCache<ManifestIdentifier, AndroidManifest>,
    env: BuildEnvironment,
    config: Config,
    identify: (ManifestFactory, Config) -> ManifestIdentifier,
    create: (ManifestFactory, ManifestIdentifier) -> AndroidManifest)
    returns (manifest: AndroidManifest)
    requires cache.Valid()
    modifies cache
    ensures cache.Valid()
    ensures var factory := GetManifestFactory(env, config);
            var id := identify(factory, config);
            && id in cache.entries && cache.entries[id] == manifest
            && (id in old(cache.entries) ==>
                  manifest == old(cache.entries)[id] && cache.entries == old(cache.entries)
                  && cache.created == old(cache.created))
            && (id !in old(cache.entries) ==>
                  manifest == create(factory, id) && cache.entries == old(cache.entries)[id := manifest]
                  && cache.created == old(cache.created) + [id])
  {
    var factory := GetManifestFactory(env, config);
    var id := identify(factory, config);
    manifest := cache.Get(id, k => create(factory, k));
  }

  /** Two constructions of test classes with the same identifier share one manifest. */
  method GetAppManifestTwice(
    cache: GetOrCreateCache<ManifestIdentifier, AndroidManifest>,
    env: BuildEnvironment,
    config: Config,
    identify: (ManifestFactory, Config) -> ManifestIdentifier,
    create: (ManifestFactory, ManifestIdentifier) -> AndroidManifest)
    returns (first: AndroidManifest, second: AndroidManifest)
    requires cache.Valid()
    modifies cache
    ensures cache.Valid()
    ensures first == second
    ensures |cache.created| <= |old(cache.created)| + 1
  {
    first := GetAppManifest(cache, env, config, identify, create);
    second := GetAppManifest(cache, env, config, identify, create);
  }

  // ---------------------------------------------------------------- dependency resolver

  /** The system properties and file-system facts getJarResolver reads. */
  datatype ResolverEnvironment = ResolverEnvironment(
    offline: bool,                     // Boolean.getBoolean("robolectric.offline")
    dependencyDir: Option<string>,     // System.getProperty("robolectric.dependency.dir")
    tmpDir: string,                    // System.getProperty("java.io.tmpdir")
    cacheDirExists: bool,              // <tmpDir>/robolectric exists
    cacheDirMkdirSucceeds: bool,       // mkdir of <tmpDir>/robolectric would succeed
    depsProperties: Option<ClasspathResource>, // robolectric-deps.properties found on the classpath
    depsPropertiesReadable: bool)      // the PropertiesDependencyResolver can read it

  /** A classpath resource: its URL, and the file path `url.getFile()` gives. */
  datatype ClasspathResource = ClasspathResource(url: string, file: string)

  datatype DependencyResolver =
    | LocalDependencyResolver(dir: string)
    | MavenDependencyResolver
    | CachedDependencyResolver(delegate: DependencyResolver, cacheParent: string, cacheName: string, cacheValidTime: int)
    | PropertiesDependencyResolver(propertiesFile: string, delegate: DependencyResolver)

  /** The RuntimeException("couldn't read " + url) getJarResolver throws; it names the URL. */
  datatype ResolverError = CouldNotReadDepsProperties(url: string)

  const DefaultDependencyDir: string := "."
  const CacheDirName: string := "robolectric"
  /** One day, in milliseconds. */
  const CacheValidTime: int := 60 * 60 * 24 * 1000

  /** The resolver chosen before the build-path properties are considered: local when
      offline, else Maven, behind a cache when the cache directory exists or can be made. */
  function BaseJarResolver(env: ResolverEnvironment): (r: DependencyResolver)
    ensures r.LocalDependencyResolver? <==> env.offline
    ensures env.offline ==> r.dir == (if env.dependencyDir.Some? then env.dependencyDir.value else DefaultDependencyDir)
    ensures r.CachedDependencyResolver? <==> !env.offline && (env.cacheDirExists || env.cacheDirMkdirSucceeds)
    ensures r.CachedDependencyResolver? ==>
              r == CachedDependencyResolver(MavenDependencyResolver, env.tmpDir, CacheDirName, 86400000)
    ensures r.MavenDependencyResolver? <==> !env.offline && !env.cacheDirExists && !env.cacheDirMkdirSucceeds
  {
    if env.offline then
      LocalDependencyResolver(if env.dependencyDir.Some? then env.dependencyDir.value else DefaultDependencyDir)
    else if env.cacheDirExists || env.cacheDirMkdirSucceeds then
      CachedDependencyResolver(MavenDependencyResolver, env.tmpDir, CacheDirName, CacheValidTime)
    else
      MavenDependencyResolver
  }

  /** What the first getJarResolver call returns: the base resolver, wrapped in a
      PropertiesDependencyResolver when robolectric-deps.properties is on the classpath. */
  function FirstJarResolver(env: ResolverEnvironment): (r: Result<DependencyResolver, ResolverError>)
    ensures r.Err? <==> env.depsProperties.Some? && !env.depsPropertiesReadable
    ensures r.Err? ==> r.error == CouldNotReadDepsProperties(env.depsProperties.value.url)
    ensures r.Ok? && env.depsProperties.None? ==> r.value == BaseJarResolver(env)
    ensures r.Ok? && env.depsProperties.Some? ==>
              r.value == PropertiesDependencyResolver(env.depsProperties.value.file, BaseJarResolver(env))
  {
    var base := BaseJarResolver(env);
    match env.depsProperties
    case None => Ok(base)
    case Some(resource) =>
      if env.depsPropertiesReadable then Ok(PropertiesDependencyResolver(resource.file, base))
      else Err(CouldNotReadDepsProperties(resource.url))
  }

  /** The transient `dependencyResolver` field of a runner and its memoised getter. */
  class DependencyResolverSlot {
    var resolver: Option<DependencyResolver>

    constructor ()
      ensures resolver == None
    {
      resolver := None;
    }

    /** Once the field is set it is returned unchanged, whatever the environment now says.
        A failing read of the properties file leaves the base resolver in the field. */
    method GetJarResolver(env: ResolverEnvironment) returns (r: Result<DependencyResolver, ResolverError>)
      modifies this
      ensures resolver.Some?
      ensures old(resolver).Some? ==> r == Ok(old(resolver).value) && resolver == old(resolver)
      ensures old(resolver).None? ==> r == FirstJarResolver(env)
      ensures old(resolver).None? ==> resolver == Some(if r.Ok? then r.value else BaseJarResolver(env))
    {
      if resolver.None? {
        resolver := Some(BaseJarResolver(env));
        if env.depsProperties.Some? {
          if env.depsPropertiesReadable {
            resolver := Some(PropertiesDependencyResolver(env.depsProperties.value.file, resolver.value));
          } else {
            return Err(CouldNotReadDepsProperties(env.depsProperties.value.url));
          }
        }
      }
      r := Ok(resolver.value);
    }
  }
}
