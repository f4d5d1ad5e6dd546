/** Building the hot-swappable runtime from a config. */
module Runtime {
  import opened Wrappers
  import opened Registry
  import opened ConfigMap
  import Pricing

  /** What building depends on besides the config: whether HTTP clients can be created, and
      which WebAssembly components load. */
  datatype Env = Env(httpOk: bool, loadable: set<string>)

  /** What the connectors sign their calls with, read from the process environment. */
  datatype Credentials = Credentials(
    openai: string, anthropic: string, azure: string,
    bedrockAccess: string, bedrockSecret: string, bedrockSession: Option<string>)

  type Vars = map<string, string>

  /** An unset variable reads as empty; a build does not fail for it. */
  function ReadKey(vars: Vars, name: string): string {
    if name in vars then vars[name] else ""
  }

  function OptionalKey(vars: Vars, name: string): Option<string> {
    if ReadKey(vars, name) == "" then None else Some(ReadKey(vars, name))
  }

  function ReadCredentials(vars: Vars, p: Providers): Credentials {
    Credentials(
      ReadKey(vars, p.openai.apiKeyEnv), ReadKey(vars, p.anthropic.apiKeyEnv), ReadKey(vars, p.azure.apiKeyEnv),
      ReadKey(vars, p.bedrock.accessKeyEnv), ReadKey(vars, p.bedrock.secretKeyEnv),
      OptionalKey(vars, p.bedrock.sessionTokenEnv))
  }

  datatype Runtime = Runtime(
    providers: Providers, credentials: Credentials, models: map<string, ResolvedModel>, pricing: Pricing.Table,
    cache: Option<CacheConfig>, plugins: seq<PluginConfig>, registered: seq<(string, string)>)

  function Connectors(): map<string, Connector> {
    map["openai" := Connector("openai", "openai"),
        "anthropic" := Connector("anthropic", "anthropic"),
        "azure" := Connector("azure", "azure"),
        "bedrock" := Connector("bedrock", "bedrock")]
  }

  predicate PluginLoads(env: Env, p: PluginConfig) {
    p.Wasm? ==> p.hook == "inspect-request" && p.path in env.loadable
  }

  predicate Buildable(env: Env, config: Config) {
    && env.httpOk
    && AllKnown(Connectors(), config.models)
    && forall p | p in config.plugins :: PluginLoads(env, p)
  }

  /** The runtime a config builds to; `bundled` is the pricing table in the binary and `vars` the
      process environment. */
  function RuntimeOf(bundled: Pricing.Table, vars: Vars, config: Config): Runtime
    requires AllKnown(Connectors(), config.models)
  {
    Runtime(config.providers, ReadCredentials(vars, config.providers), ResolveAll(Connectors(), config.models),
            Pricing.Overlay(bundled, config.pricing),
            if config.cache.enabled then Some(config.cache) else None, config.plugins,
            MapSeq((m: ModelConfig) => (m.name, m.primary.provider), config.models))
  }

  /** One plugin that does not load fails the whole build. */
  method LoadPlugins(env: Env, plugins: seq<PluginConfig>) returns (r: Result<seq<PluginConfig>, string>)
    ensures r.Ok? <==> forall p | p in plugins :: PluginLoads(env, p)
    ensures r.Ok? ==> r.value == plugins
  {
    var entries := [];
    for i := 0 to |plugins|
      invariant entries == plugins[..i]
      invariant forall j | 0 <= j < i :: PluginLoads(env, plugins[j])
    {
      var p := plugins[i];
      assert p in plugins;
      if p.Wasm? {
        if p.hook != "inspect-request" {
          return Err("wasm plugin binds unsupported hook");
        }
        if p.path !in env.loadable {
          return Err("failed to load wasm plugin");
        }
      }
      entries := entries + [p];
    }
    r := Ok(entries);
  }

  method BuildRuntime(env: Env, bundled: Pricing.Table, vars: Vars, config: Config) returns (r: Result<Runtime, string>)
    ensures r.Ok? <==> Buildable(env, config)
    ensures r.Ok? ==> r.value == RuntimeOf(bundled, vars, config)
  {
    if !env.httpOk {
      return Err("failed to build connector");
    }
    hide AllKnown, ResolveAll, ReadCredentials, Connectors, Pricing.Overlay;
    var credentials := ReadCredentials(vars, config.providers);
    var registry := NewRegistry(Connectors(), config.models);
    if registry.Err? {
      return Err("failed to build model registry");
    }
    var pricing := Pricing.OverlaidWith(bundled, config.pricing);
    var cache := if config.cache.enabled then Some(config.cache) else None;
    var plugins := LoadPlugins(env, config.plugins);
    if plugins.Err? {
      return Err(plugins.error);
    }
    var registered := MapSeq((m: ModelConfig) => (m.name, m.primary.provider), config.models);
    return Ok(Runtime(config.providers, credentials, registry.value, pricing, cache, plugins.value, registered));
  }

  /** The shared handle: readers load a snapshot, writers store a whole new runtime. */
  class RuntimeHandle {
    var current: Runtime

    constructor (runtime: Runtime)
      ensures current == runtime
    {
      current := runtime;
    }

    method Store(runtime: Runtime)
      modifies this
      ensures current == runtime
    {
      current := runtime;
    }
  }
}
