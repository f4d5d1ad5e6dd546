/** What a gateway that follows the Control Node runs, field by field: what each setting takes
    from the bundle, and what from the gateway's own config and process. */
module SyncContents {
  import opened Wrappers
  import opened Registry
  import opened ConfigMap
  import opened Runtime
  import opened KeyStore
  import opened ControlNode
  import opened SyncRuns
  import Pricing

  const PROVIDERS := {"openai", "anthropic", "azure", "bedrock"}

  // ----- which bundles build -----

  predicate ModelBuilds(m: WireModel) {
    m.primary.provider in PROVIDERS && forall r | r in m.fallbacks :: r.provider in PROVIDERS
  }

  predicate PluginBuilds(env: Env, p: WirePlugin) {
    p.WireWasm? ==> p.hook == "inspect-request" && p.path in env.loadable
  }

  lemma ModelKnown(m: WireModel)
    ensures AllProvided(Connectors(), MapModel(m)) <==> ModelBuilds(m)
  {
  }

  lemma PluginKnown(env: Env, p: WirePlugin)
    ensures PluginLoads(env, MapPlugin(p)) <==> PluginBuilds(env, p)
  {
  }

  lemma AllModelsKnown(ms: seq<WireModel>)
    ensures AllKnown(Connectors(), MapSeq(MapModel, ms)) <==> forall m | m in ms :: ModelBuilds(m)
  {
    hide ModelBuilds, MapModel, AllProvided, AllKnown, Connectors;
    var mapped := MapSeq(MapModel, ms);
    BuildsWhenProvided(Connectors(), mapped);
    forall i | 0 <= i < |ms|
      ensures AllProvided(Connectors(), mapped[i]) <==> ModelBuilds(ms[i])
    {
      ModelKnown(ms[i]);
    }
    if forall m | m in ms :: ModelBuilds(m) {
      forall m | m in mapped
        ensures AllProvided(Connectors(), m)
      {
        var i :| 0 <= i < |ms| && mapped[i] == m;
        assert ms[i] in ms;
      }
    } else {
      var m :| m in ms && !ModelBuilds(m);
      var i :| 0 <= i < |ms| && ms[i] == m;
      assert mapped[i] in mapped;
    }
  }

  lemma AllPluginsLoad(env: Env, ps: seq<WirePlugin>)
    ensures (forall p | p in MapSeq(MapPlugin, ps) :: PluginLoads(env, p)) <==>
            forall p | p in ps :: PluginBuilds(env, p)
  {
    hide PluginLoads, PluginBuilds, MapPlugin;
    var mapped := MapSeq(MapPlugin, ps);
    forall i | 0 <= i < |ps|
      ensures PluginLoads(env, mapped[i]) <==> PluginBuilds(env, ps[i])
    {
      PluginKnown(env, ps[i]);
    }
    if forall p | p in ps :: PluginBuilds(env, p) {
      forall p | p in mapped
        ensures PluginLoads(env, p)
      {
        var i :| 0 <= i < |ps| && mapped[i] == p;
        assert ps[i] in ps;
      }
    } else {
      var p :| p in ps && !PluginBuilds(env, p);
      var i :| 0 <= i < |ps| && ps[i] == p;
      assert mapped[i] in mapped;
    }
  }

  /** A bundle builds iff HTTP clients can be made, every route names one of the four providers,
      and every WebAssembly plugin binds the supported hook and loads. */
  lemma BuildsExactly(local: Local, env: Env, b: Bundle)
    ensures Builds(local, env, b) <==>
            && env.httpOk
            && (forall m | m in b.models :: ModelBuilds(m))
            && forall p | p in b.plugins :: PluginBuilds(env, p)
  {
    hide ModelBuilds, PluginBuilds, PluginLoads, AllKnown, MapSeq, Connectors;
    AllModelsKnown(b.models);
    AllPluginsLoad(env, b.plugins);
  }

  // ----- what it builds to -----

  /** The setting of the bundle where it has one, else the gateway's own. */
  predicate Takes<T(==)>(setting: T, wire: Option<T>, own: T) {
    setting == match wire case Some(x) => x case None => own
  }

  function Bind<A, B>(o: Option<A>, f: A -> Option<B>): Option<B> {
    match o
    case None => None
    case Some(x) => f(x)
  }

  predicate HttpTakes(p: HttpProvider, wire: Option<WireHttp>, own: HttpProvider) {
    && Takes(p.baseUrl, Bind(wire, (w: WireHttp) => w.baseUrl), own.baseUrl)
    && Takes(p.apiKeyEnv, Bind(wire, (w: WireHttp) => w.apiKeyEnv), own.apiKeyEnv)
  }

  predicate AzureTakes(p: AzureProvider, wire: Option<WireAzure>, own: AzureProvider) {
    && Takes(p.baseUrl, Bind(wire, (w: WireAzure) => w.baseUrl), own.baseUrl)
    && Takes(p.apiKeyEnv, Bind(wire, (w: WireAzure) => w.apiKeyEnv), own.apiKeyEnv)
    && Takes(p.apiVersion, Bind(wire, (w: WireAzure) => w.apiVersion), own.apiVersion)
  }

  predicate BedrockTakes(p: BedrockProvider, wire: Option<WireBedrock>, own: BedrockProvider) {
    && Takes(p.region, Bind(wire, (w: WireBedrock) => w.region), own.region)
    && Takes(p.accessKeyEnv, Bind(wire, (w: WireBedrock) => w.accessKeyEnv), own.accessKeyEnv)
    && Takes(p.secretKeyEnv, Bind(wire, (w: WireBedrock) => w.secretKeyEnv), own.secretKeyEnv)
    && Takes(p.sessionTokenEnv, Bind(wire, (w: WireBedrock) => w.sessionTokenEnv), own.sessionTokenEnv)
  }

  predicate ProvidersTake(p: Providers, wire: WireProviders, own: Providers) {
    && HttpTakes(p.openai, wire.openai, own.openai) && HttpTakes(p.anthropic, wire.anthropic, own.anthropic)
    && AzureTakes(p.azure, wire.azure, own.azure) && BedrockTakes(p.bedrock, wire.bedrock, own.bedrock)
  }

  /** The variable's value, empty when it is unset. */
  predicate IsVar(value: string, vars: Vars, name: string) {
    if name in vars then value == vars[name] else value == ""
  }

  /** Each connector signs with the variables its own provider block names. */
  predicate CredentialsTake(c: Credentials, vars: Vars, p: Providers) {
    && IsVar(c.openai, vars, p.openai.apiKeyEnv)
    && IsVar(c.anthropic, vars, p.anthropic.apiKeyEnv)
    && IsVar(c.azure, vars, p.azure.apiKeyEnv)
    && IsVar(c.bedrockAccess, vars, p.bedrock.accessKeyEnv)
    && IsVar(c.bedrockSecret, vars, p.bedrock.secretKeyEnv)
    && match c.bedrockSession
       case Some(token) => token != "" && IsVar(token, vars, p.bedrock.sessionTokenEnv)
       case None => IsVar("", vars, p.bedrock.sessionTokenEnv)
  }

  predicate CacheTakes(cache: Option<CacheConfig>, wire: Option<WireCache>, own: CacheConfig) {
    match cache
    case None => Takes(false, Bind(wire, (w: WireCache) => w.enabled), own.enabled)
    case Some(c) =>
      && c.enabled && Takes(c.enabled, Bind(wire, (w: WireCache) => w.enabled), own.enabled)
      && Takes(c.sizeMb, Bind(wire, (w: WireCache) => w.sizeMb), own.sizeMb)
      && Takes(c.ttlSeconds, Bind(wire, (w: WireCache) => w.ttlSeconds), own.ttlSeconds)
  }

  predicate PluginTakes(p: PluginConfig, wire: WirePlugin) {
    match wire
    case WirePii(patterns, replacement) =>
      && p.PiiRedaction?
      && Takes(p.patterns, patterns, [Ssn, CreditCard, PhoneUs, Email])
      && Takes(p.replacement, replacement, "[REDACTED]")
    case WireWasm(name, path, hook, budget, onTimeout, bindRoutes) =>
      && p.Wasm? && p.name == name && p.path == path && p.hook == hook && p.bindRoutes == bindRoutes
      && Takes(p.latencyBudgetMs, budget, 5) && Takes(p.onTimeout, onTimeout, FailOpen)
  }

  predicate IsRoute(route: ResolvedRoute, wire: Route) {
    route.connector == Connector(wire.provider, wire.provider) && route.model == wire.model
  }

  ghost predicate ModelTakes(m: ResolvedModel, wire: WireModel) {
    && |m.routes| == 1 + |wire.fallbacks|
    && IsRoute(m.routes[0], wire.primary)
    && (forall i | 0 <= i < |wire.fallbacks| :: IsRoute(m.routes[1 + i], wire.fallbacks[i]))
    && (forall s :: s in m.retryOn <==>
          match wire.retryOn case Some(listed) => s in listed case None => s in [429, 500, 502, 503, 504])
    && Takes(m.timeoutMs, wire.timeoutMs, 30000)
  }

  /** `ms[i]` is the last model of this name. */
  predicate LastModel(ms: seq<WireModel>, name: string, i: nat)
    requires i < |ms|
  {
    ms[i].name == name && forall j | i < j < |ms| :: ms[j].name != name
  }

  /** Exactly the bundle's models are served, each as its last entry says. */
  ghost predicate ModelsTake(models: map<string, ResolvedModel>, wire: seq<WireModel>) {
    forall name ::
      && (name in models <==> exists m :: m in wire && m.name == name)
      && (name in models ==>
            exists i :: 0 <= i < |wire| && LastModel(wire, name, i) && ModelTakes(models[name], wire[i]))
  }

  /** The binary's prices, overridden pair by pair by the bundle's table, or by the gateway's own
      when the bundle carries none. */
  ghost predicate PricesTake(prices: Pricing.Table, wire: Option<Pricing.Table>, local: Local) {
    var over := match wire case Some(t) => t case None => local.base.pricing;
    forall p, m ::
      var listed := p in over && m in over[p];
      && (p in prices && m in prices[p] <==> listed || (p in local.bundled && m in local.bundled[p]))
      && (listed ==> prices[p][m] == over[p][m])
      && (!listed && p in local.bundled && m in local.bundled[p] ==> prices[p][m] == local.bundled[p][m])
  }

  /** A runtime reflects a bundle. */
  ghost predicate Reflects(local: Local, b: Bundle, r: Runtime) {
    && ProvidersTake(r.providers, b.providers, local.base.providers)
    && CredentialsTake(r.credentials, local.vars, r.providers)
    && ModelsTake(r.models, b.models)
    && PricesTake(r.pricing, b.pricing, local)
    && CacheTakes(r.cache, b.cache, local.base.cache)
    && |r.plugins| == |b.plugins| && (forall i | 0 <= i < |b.plugins| :: PluginTakes(r.plugins[i], b.plugins[i]))
    && |r.registered| == |b.models|
    && forall i | 0 <= i < |b.models| :: r.registered[i] == (b.models[i].name, b.models[i].primary.provider)
  }

  lemma ProvidersReflect(wire: WireProviders, own: Providers)
    ensures ProvidersTake(OverProviders(own, wire), wire, own)
  {
  }

  lemma CredentialsReflect(vars: Vars, p: Providers)
    ensures CredentialsTake(ReadCredentials(vars, p), vars, p)
  {
  }

  lemma CacheReflects(wire: Option<WireCache>, own: CacheConfig)
    ensures var c := OverCache(own, wire); CacheTakes(if c.enabled then Some(c) else None, wire, own)
  {
  }

  lemma PluginReflects(wire: WirePlugin)
    ensures PluginTakes(MapPlugin(wire), wire)
  {
  }

  lemma PricesReflect(wire: Option<Pricing.Table>, local: Local)
    ensures PricesTake(Pricing.Overlay(local.bundled, Or(wire, local.base.pricing)), wire, local)
  {
    var over := match wire case Some(t) => t case None => local.base.pricing;
    var prices := Pricing.Overlay(local.bundled, over);
    forall p, m
      ensures var listed := p in over && m in over[p];
              && (p in prices && m in prices[p] <==> listed || (p in local.bundled && m in local.bundled[p]))
              && (listed ==> prices[p][m] == over[p][m])
              && (!listed && p in local.bundled && m in local.bundled[p] ==> prices[p][m] == local.bundled[p][m])
    {
      Pricing.OverlayLookup(local.bundled, over, p, m);
    }
  }

  lemma ServedTakes(wire: WireModel, m: ResolvedModel)
    requires Serves(Connectors(), MapModel(wire), m)
    ensures ModelTakes(m, wire)
  {
    ConnectorNames();
    hide Connectors;
  }

  lemma ConnectorNames()
    ensures forall p | p in Connectors() :: Connectors()[p] == Connector(p, p)
  {
  }

  lemma ModelReflects(wire: seq<WireModel>, name: string)
    requires AllKnown(Connectors(), MapSeq(MapModel, wire))
    ensures var models := ResolveAll(Connectors(), MapSeq(MapModel, wire));
            && (name in models <==> exists m :: m in wire && m.name == name)
            && (name in models ==>
                  exists i :: 0 <= i < |wire| && LastModel(wire, name, i) && ModelTakes(models[name], wire[i]))
  {
    hide AllKnown, ResolveAll, Connectors, Serves, ModelTakes;
    var mapped := MapSeq(MapModel, wire);
    ResolveAllByLast(Connectors(), mapped, name);
    assert forall i | 0 <= i < |wire| :: mapped[i].name == wire[i].name;
    if m :| m in wire && m.name == name {
      var i :| 0 <= i < |wire| && wire[i] == m;
      assert mapped[i] in mapped;
    }
    if name in ResolveAll(Connectors(), mapped) {
      var i :| 0 <= i < |mapped| && IsLast(mapped, name, i)
        && Serves(Connectors(), mapped[i], ResolveAll(Connectors(), mapped)[name]);
      ServedTakes(wire[i], ResolveAll(Connectors(), mapped)[name]);
      assert LastModel(wire, name, i);
      assert wire[i] in wire;
    }
  }

  /** Building a bundle gives a runtime that reflects it. */
  lemma BuiltReflects(local: Local, env: Env, b: Bundle)
    requires Builds(local, env, b)
    ensures Reflects(local, b, Built(local, b))
  {
    hide AllKnown, ResolveAll, Connectors, ModelTakes, MapModel, MapPlugin, OverProviders, OverCache, ReadCredentials,
      ProvidersTake, CredentialsTake, CacheTakes, PluginTakes, PricesTake, PluginLoads, Pricing.Overlay, LastModel;
    ProvidersReflect(b.providers, local.base.providers);
    CredentialsReflect(local.vars, OverProviders(local.base.providers, b.providers));
    CacheReflects(b.cache, local.base.cache);
    PricesReflect(b.pricing, local);
    forall i | 0 <= i < |b.plugins|
      ensures PluginTakes(MapPlugin(b.plugins[i]), b.plugins[i])
    {
      PluginReflects(b.plugins[i]);
    }
    forall i | 0 <= i < |b.models|
      ensures MapModel(b.models[i]).name == b.models[i].name && MapModel(b.models[i]).primary == b.models[i].primary
    {
      ModelHead(b.models[i]);
    }
    forall name
      ensures var models := ResolveAll(Connectors(), MapSeq(MapModel, b.models));
              && (name in models <==> exists m :: m in b.models && m.name == name)
              && (name in models ==>
                    exists i :: 0 <= i < |b.models| && LastModel(b.models, name, i)
                        && ModelTakes(models[name], b.models[i]))
    {
      ModelReflects(b.models, name);
    }
  }

  lemma ModelHead(m: WireModel)
    ensures MapModel(m).name == m.name && MapModel(m).primary == m.primary
  {
  }

  /** Over any run against any server, the live runtime reflects, field by field, the last bundle
      that built. */
  lemma RuntimeReflectsBundle(local: Local, start: Node, inputs: seq<Input>)
    ensures match LastConfig(local, inputs)
            case Some(k) => Reflects(local, inputs[k].config.body.value, Run(local, start, inputs).runtime)
            case None => Run(local, start, inputs).runtime == start.runtime
  {
    hide Builds, Built, Run, Reflects;
    ConfigAgreement(local, start, inputs);
    if LastConfig(local, inputs).Some? {
      var i := inputs[LastConfig(local, inputs).value];
      BuiltReflects(local, i.env, i.config.body.value);
    }
  }

  // ----- keys -----

  /** A stored key is a wire key: its scope, and its limits where it has any. */
  predicate KeyTakes(k: VirtualKey, wire: WireKey) {
    && k.id == wire.id && k.hash == wire.hashedKey && k.expiresAt == wire.expiresAt
    && k.team == wire.scope.team && k.app == wire.scope.app && k.env == wire.scope.env
    && k.models == wire.scope.allowedModels
    && k.rateLimitRps == Bind(wire.limits, (l: WireLimits) => l.requestsPerSecond)
    && k.spendLimit == Bind(wire.limits, (l: WireLimits) => l.spendLimit)
  }

  predicate LastKey(ks: seq<WireKey>, hash: string, i: nat)
    requires i < |ks|
  {
    ks[i].hashedKey == hash && forall j | i < j < |ks| :: ks[j].hashedKey != hash
  }

  lemma KeyReflects(wire: WireKey)
    ensures KeyTakes(MapKey(wire), wire)
  {
  }

  lemma StoredKeysReflect(ks: seq<WireKey>, hash: string)
    ensures var m := ByHash(ToVirtualKeys(ks));
            && (Authenticated(m, hash).Some? <==> exists k :: k in ks && k.hashedKey == hash)
            && (Authenticated(m, hash).Some? ==>
                  exists i :: 0 <= i < |ks| && LastKey(ks, hash, i) && KeyTakes(Authenticated(m, hash).value, ks[i]))
  {
    hide ByHash, KeyTakes, MapKey;
    var mapped := ToVirtualKeys(ks);
    ByHashIsLast(mapped, hash);
    forall i | 0 <= i < |ks|
      ensures mapped[i].hash == ks[i].hashedKey && KeyTakes(mapped[i], ks[i])
    {
      KeyReflects(ks[i]);
      KeyHash(ks[i]);
    }
    if k :| k in ks && k.hashedKey == hash {
      var i :| 0 <= i < |ks| && ks[i] == k;
      assert mapped[i] in mapped;
    }
    if hash in ByHash(mapped) {
      var i :| 0 <= i < |mapped| && mapped[i] == ByHash(mapped)[hash]
        && forall j | i < j < |mapped| :: mapped[j].hash != hash;
      assert ByHash(mapped)[hash].hash == hash;
      assert LastKey(ks, hash, i);
      assert ks[i] in ks;
    }
  }

  lemma KeyHash(wire: WireKey)
    ensures MapKey(wire).hash == wire.hashedKey
  {
  }

  /** Over any run, a token authenticates iff the last parsed key set lists its hash, and then as
      the last entry with that hash says. */
  lemma KeysReflectSet(local: Local, start: Node, inputs: seq<Input>, hash: string)
    ensures var stored := Run(local, start, inputs).keys;
            match LastKeys(inputs)
            case Some(k) =>
              var ks := inputs[k].keys.body.value.keys;
              && (Authenticated(stored, hash).Some? <==> exists w :: w in ks && w.hashedKey == hash)
              && (Authenticated(stored, hash).Some? ==>
                    exists i :: 0 <= i < |ks| && LastKey(ks, hash, i)
                        && KeyTakes(Authenticated(stored, hash).value, ks[i]))
            case None => stored == start.keys
  {
    hide Run, ByHash, ToVirtualKeys, KeyTakes, LastKey;
    KeysAgreement(local, start, inputs);
    if LastKeys(inputs).Some? {
      StoredKeysReflect(inputs[LastKeys(inputs).value].keys.body.value.keys, hash);
    }
  }
}
