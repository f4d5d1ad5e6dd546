/** The Control Node's config bundle and its overlay onto the gateway's local config. */
module ConfigMap {
  import opened Wrappers
  import opened Registry
  import Pricing

  // ----- the gateway's own config -----

  datatype HttpProvider = HttpProvider(baseUrl: string, apiKeyEnv: string)
  datatype AzureProvider = AzureProvider(baseUrl: string, apiKeyEnv: string, apiVersion: string)
  datatype BedrockProvider = BedrockProvider(
    region: string, accessKeyEnv: string, secretKeyEnv: string, sessionTokenEnv: string)
  datatype Providers = Providers(
    openai: HttpProvider, anthropic: HttpProvider, azure: AzureProvider, bedrock: BedrockProvider)

  datatype CacheConfig = CacheConfig(enabled: bool, sizeMb: nat, ttlSeconds: nat)

  datatype PiiPattern = Ssn | CreditCard | PhoneUs | Email
  datatype FailMode = FailOpen | FailClosed
  datatype PluginConfig =
    | PiiRedaction(patterns: seq<PiiPattern>, replacement: string)
    | Wasm(name: string, path: string, hook: string, latencyBudgetMs: nat, onTimeout: FailMode, bindRoutes: seq<string>)

  /** `local` stands for every setting a bundle does not carry: listeners, admin token, shutdown,
      the control-plane block, local keys. */
  datatype Config = Config(
    local: string, models: seq<ModelConfig>, providers: Providers, pricing: Pricing.Table,
    cache: CacheConfig, plugins: seq<PluginConfig>)

  // ----- the wire bundle: every defaulted field is an option -----

  datatype WireModel = WireModel(
    name: string, primary: Route, fallbacks: seq<Route>, retryOn: Option<seq<nat>>, timeoutMs: Option<nat>)
  datatype WireHttp = WireHttp(baseUrl: Option<string>, apiKeyEnv: Option<string>)
  datatype WireAzure = WireAzure(baseUrl: Option<string>, apiKeyEnv: Option<string>, apiVersion: Option<string>)
  datatype WireBedrock = WireBedrock(
    region: Option<string>, accessKeyEnv: Option<string>, secretKeyEnv: Option<string>, sessionTokenEnv: Option<string>)
  datatype WireProviders = WireProviders(
    openai: Option<WireHttp>, anthropic: Option<WireHttp>, azure: Option<WireAzure>, bedrock: Option<WireBedrock>)
  datatype WireCache = WireCache(enabled: Option<bool>, sizeMb: Option<nat>, ttlSeconds: Option<nat>)
  datatype WirePlugin =
    | WirePii(patterns: Option<seq<PiiPattern>>, replacement: Option<string>)
    | WireWasm(
        name: string, path: string, hook: string, latencyBudgetMs: Option<nat>, onTimeout: Option<FailMode>,
        bindRoutes: seq<string>)

  datatype Bundle = Bundle(
    version: string, models: seq<WireModel>, providers: WireProviders, pricing: Option<Pricing.Table>,
    plugins: seq<WirePlugin>, cache: Option<WireCache>)

  const DEFAULT_RETRY_ON: seq<nat> := [429, 500, 502, 503, 504]
  const DEFAULT_TIMEOUT_MS := 30000
  const DEFAULT_WASM_LATENCY_BUDGET_MS := 5
  const DEFAULT_PII_REPLACEMENT := "[REDACTED]"
  const ALL_PATTERNS := [Ssn, CreditCard, PhoneUs, Email]

  function Or<T>(o: Option<T>, default: T): T {
    if o.Some? then o.value else default
  }

  function MapModel(m: WireModel): ModelConfig {
    ModelConfig(m.name, m.primary, m.fallbacks, Or(m.retryOn, DEFAULT_RETRY_ON), Or(m.timeoutMs, DEFAULT_TIMEOUT_MS))
  }

  function MapPlugin(p: WirePlugin): PluginConfig {
    match p
    case WirePii(patterns, replacement) =>
      PiiRedaction(Or(patterns, ALL_PATTERNS), Or(replacement, DEFAULT_PII_REPLACEMENT))
    case WireWasm(name, path, hook, budget, onTimeout, bindRoutes) =>
      Wasm(name, path, hook, Or(budget, DEFAULT_WASM_LATENCY_BUDGET_MS), Or(onTimeout, FailOpen), bindRoutes)
  }

  function MapSeq<A, B>(f: A -> B, s: seq<A>): seq<B> {
    seq(|s|, i requires 0 <= i < |s| => f(s[i]))
  }

  function OverHttp(base: HttpProvider, w: Option<WireHttp>): HttpProvider {
    if w.None? then base else HttpProvider(Or(w.value.baseUrl, base.baseUrl), Or(w.value.apiKeyEnv, base.apiKeyEnv))
  }

  function OverAzure(base: AzureProvider, w: Option<WireAzure>): AzureProvider {
    if w.None? then base
    else
      AzureProvider(Or(w.value.baseUrl, base.baseUrl), Or(w.value.apiKeyEnv, base.apiKeyEnv),
                    Or(w.value.apiVersion, base.apiVersion))
  }

  function OverBedrock(base: BedrockProvider, w: Option<WireBedrock>): BedrockProvider {
    if w.None? then base
    else BedrockProvider(Or(w.value.region, base.region), Or(w.value.accessKeyEnv, base.accessKeyEnv),
                         Or(w.value.secretKeyEnv, base.secretKeyEnv), Or(w.value.sessionTokenEnv, base.sessionTokenEnv))
  }

  function OverProviders(base: Providers, w: WireProviders): Providers {
    Providers(OverHttp(base.openai, w.openai), OverHttp(base.anthropic, w.anthropic),
              OverAzure(base.azure, w.azure), OverBedrock(base.bedrock, w.bedrock))
  }

  function OverCache(base: CacheConfig, w: Option<WireCache>): CacheConfig {
    if w.None? then base
    else
      CacheConfig(Or(w.value.enabled, base.enabled), Or(w.value.sizeMb, base.sizeMb),
                  Or(w.value.ttlSeconds, base.ttlSeconds))
  }

  /** The effective config: models and plugins come from the bundle, every other field from the
      bundle where it has one and from the base where it has not. */
  function Applied(base: Config, b: Bundle): Config {
    Config(base.local, MapSeq(MapModel, b.models), OverProviders(base.providers, b.providers),
           Or(b.pricing, base.pricing), OverCache(base.cache, b.cache), MapSeq(MapPlugin, b.plugins))
  }

  method ApplyProviders(config: Config, p: WireProviders) returns (r: Config)
    ensures r == config.(providers := OverProviders(config.providers, p))
  {
    r := config;
    if p.openai.Some? {
      r := r.(providers := r.providers.(openai := OverHttp(r.providers.openai, p.openai)));
    }
    if p.anthropic.Some? {
      r := r.(providers := r.providers.(anthropic := OverHttp(r.providers.anthropic, p.anthropic)));
    }
    if p.azure.Some? {
      r := r.(providers := r.providers.(azure := OverAzure(r.providers.azure, p.azure)));
    }
    if p.bedrock.Some? {
      r := r.(providers := r.providers.(bedrock := OverBedrock(r.providers.bedrock, p.bedrock)));
    }
  }

  method ApplyConfig(base: Config, b: Bundle) returns (config: Config)
    ensures config == Applied(base, b)
  {
    config := base.(models := MapSeq(MapModel, b.models));
    config := ApplyProviders(config, b.providers);
    if b.pricing.Some? {
      config := config.(pricing := b.pricing.value);
    }
    if b.cache.Some? {
      config := config.(cache := OverCache(config.cache, b.cache));
    }
    config := config.(plugins := MapSeq(MapPlugin, b.plugins));
  }

  /** Applying a bundle again changes nothing, and a bundle never reaches the local settings. */
  lemma AppliedIsIdempotent(base: Config, b: Bundle)
    ensures Applied(Applied(base, b), b) == Applied(base, b)
    ensures Applied(base, b).local == base.local
  {
  }
}
