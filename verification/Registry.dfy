/** The model registry: route resolution and dispatch with failover. Connectors answer from
    outside, so a call's outcome is an input; calls made and audit events are recorded. */
module Registry {
  import opened Wrappers

  datatype Route = Route(provider: string, model: string)

  datatype ModelConfig = ModelConfig(
    name: string, primary: Route, fallbacks: seq<Route>, retryOn: seq<nat>, timeoutMs: nat)

  datatype Error =
    | ConfigError(message: string)
    | ProviderError(message: string)
    | UpstreamTimeout(message: string)

  /** A connector, by the key it is registered under and the name it reports. */
  datatype Connector = Connector(key: string, name: string)

  datatype ResolvedRoute = ResolvedRoute(connector: Connector, model: string)

  datatype ResolvedModel = ResolvedModel(routes: seq<ResolvedRoute>, retryOn: set<nat>, timeoutMs: nat)

  // ----- building the registry -----

  function RoutesOf(m: ModelConfig): seq<Route> {
    [m.primary] + m.fallbacks
  }

  function Statuses(m: ModelConfig): set<nat> {
    set s | s in m.retryOn
  }

  predicate Known(connectors: map<string, Connector>, m: ModelConfig) {
    forall r | r in RoutesOf(m) :: r.provider in connectors
  }

  function Resolve(connectors: map<string, Connector>, rs: seq<Route>): seq<ResolvedRoute>
    requires forall r | r in rs :: r.provider in connectors
  {
    seq(|rs|, i requires 0 <= i < |rs| => ResolvedRoute(connectors[rs[i].provider], rs[i].model))
  }

  function Resolved(connectors: map<string, Connector>, m: ModelConfig): ResolvedModel
    requires Known(connectors, m)
  {
    ResolvedModel(Resolve(connectors, RoutesOf(m)), Statuses(m), m.timeoutMs)
  }

  function UnknownProvider(m: ModelConfig, r: Route): Error {
    ConfigError("model '" + m.name + "' references unknown provider '" + r.provider + "'")
  }

  function LastTimedOut(last: Connector): Error {
    UpstreamTimeout("request timed out on all configured providers (last: " + last.name + ")")
  }

  predicate AllKnown(connectors: map<string, Connector>, configs: seq<ModelConfig>) {
    forall m | m in configs :: Known(connectors, m)
  }

  /** Every model resolved under its name; a later configuration of a name replaces an earlier. */
  function ResolveAll(connectors: map<string, Connector>, configs: seq<ModelConfig>): map<string, ResolvedModel>
    requires AllKnown(connectors, configs)
  {
    if configs == [] then map[]
    else
      var last := configs[|configs| - 1];
      ResolveAll(connectors, configs[..|configs| - 1])[last.name := Resolved(connectors, last)]
  }

  lemma {:induction false} LastOfName(connectors: map<string, Connector>, configs: seq<ModelConfig>, name: string)
    requires AllKnown(connectors, configs)
    ensures name in ResolveAll(connectors, configs) <==> exists m :: m in configs && m.name == name
    ensures name in ResolveAll(connectors, configs) ==>
              exists i :: 0 <= i < |configs| && IsLast(configs, name, i)
                && ResolveAll(connectors, configs)[name] == Resolved(connectors, configs[i])
  {
    hide Known, Resolved;
    if configs != [] {
      var n := |configs| - 1;
      LastOfName(connectors, configs[..n], name);
      assert configs == configs[..n] + [configs[n]];
      if configs[n].name == name {
        assert configs[n] in configs;
        assert IsLast(configs, name, n);
      } else if name in ResolveAll(connectors, configs[..n]) {
        var i :| 0 <= i < n && IsLast(configs[..n], name, i)
              && ResolveAll(connectors, configs[..n])[name] == Resolved(connectors, configs[..n][i]);
        assert configs[i].name == name && configs[i] in configs;
        assert forall j | i < j < |configs| :: j < n ==> configs[j] == configs[..n][j];
        assert IsLast(configs, name, i);
      }
    }
  }

  /** `configs[i]` is the last configuration of this name. */
  predicate IsLast(configs: seq<ModelConfig>, name: string, i: nat)
    requires i < |configs|
  {
    configs[i].name == name && forall j | i < j < |configs| :: configs[j].name != name
  }

  predicate AllProvided(connectors: map<string, Connector>, m: ModelConfig) {
    m.primary.provider in connectors && forall r | r in m.fallbacks :: r.provider in connectors
  }

  /** What a model is configured to do: try the primary, then the fallbacks in order, on the
      listed statuses and within the timeout. */
  ghost predicate Serves(connectors: map<string, Connector>, m: ModelConfig, r: ResolvedModel) {
    && AllProvided(connectors, m)
    && |r.routes| == 1 + |m.fallbacks|
    && r.routes[0] == ResolvedRoute(connectors[m.primary.provider], m.primary.model)
    && (forall i | 0 <= i < |m.fallbacks| ::
          r.routes[1 + i] == ResolvedRoute(connectors[m.fallbacks[i].provider], m.fallbacks[i].model))
    && (forall s :: s in r.retryOn <==> s in m.retryOn)
    && r.timeoutMs == m.timeoutMs
  }

  lemma KnownMeansProvided(connectors: map<string, Connector>, m: ModelConfig)
    ensures Known(connectors, m) <==> AllProvided(connectors, m)
  {
    assert RoutesOf(m)[0] == m.primary;
    if Known(connectors, m) {
      forall r | r in m.fallbacks
        ensures r.provider in connectors
      {
        var i :| 0 <= i < |m.fallbacks| && m.fallbacks[i] == r;
        assert RoutesOf(m)[1 + i] == r;
      }
    }
  }

  lemma ResolvedServes(connectors: map<string, Connector>, m: ModelConfig)
    requires Known(connectors, m)
    ensures Serves(connectors, m, Resolved(connectors, m))
  {
    KnownMeansProvided(connectors, m);
    forall i | 0 <= i < |m.fallbacks|
      ensures RoutesOf(m)[1 + i] == m.fallbacks[i]
    {
    }
  }

  /** A name is served iff it is configured, and then as its last configuration says. */
  lemma ResolveAllByLast(connectors: map<string, Connector>, configs: seq<ModelConfig>, name: string)
    requires AllKnown(connectors, configs)
    ensures name in ResolveAll(connectors, configs) <==> exists m :: m in configs && m.name == name
    ensures name in ResolveAll(connectors, configs) ==>
              exists i :: 0 <= i < |configs| && IsLast(configs, name, i)
                && Serves(connectors, configs[i], ResolveAll(connectors, configs)[name])
  {
    hide Known, Resolved, Serves, IsLast, ResolveAll;
    LastOfName(connectors, configs, name);
    if name in ResolveAll(connectors, configs) {
      var i :| 0 <= i < |configs| && IsLast(configs, name, i)
        && ResolveAll(connectors, configs)[name] == Resolved(connectors, configs[i]);
      assert configs[i] in configs;
      ResolvedServes(connectors, configs[i]);
    }
  }

  /** A registry builds iff every provider named by a primary or a fallback has a connector. */
  lemma BuildsWhenProvided(connectors: map<string, Connector>, configs: seq<ModelConfig>)
    ensures AllKnown(connectors, configs) <==> forall m | m in configs :: AllProvided(connectors, m)
  {
    hide Known, AllProvided;
    forall m
      ensures Known(connectors, m) <==> AllProvided(connectors, m)
    {
      KnownMeansProvided(connectors, m);
    }
  }

  /** `error` names the first unknown provider of `m`, the primary's before the fallbacks'. */
  ghost predicate FirstUnknown(connectors: map<string, Connector>, m: ModelConfig, error: Error) {
    var p := m.primary.provider;
    if p !in connectors then error == ConfigError("model '" + m.name + "' references unknown provider '" + p + "'")
    else
      exists j :: 0 <= j < |m.fallbacks|
        && m.fallbacks[j].provider !in connectors
        && (forall k | 0 <= k < j :: m.fallbacks[k].provider in connectors)
        && error == ConfigError(
             "model '" + m.name + "' references unknown provider '" + m.fallbacks[j].provider + "'")
  }

  lemma UnknownIsFirst(connectors: map<string, Connector>, m: ModelConfig, i: nat)
    requires i < |RoutesOf(m)| && RoutesOf(m)[i].provider !in connectors
    requires forall k | 0 <= k < i :: RoutesOf(m)[k].provider in connectors
    ensures FirstUnknown(connectors, m, UnknownProvider(m, RoutesOf(m)[i]))
  {
    assert RoutesOf(m)[0] == m.primary;
    if i > 0 {
      assert RoutesOf(m)[i] == m.fallbacks[i - 1];
      forall k | 0 <= k < i - 1
        ensures m.fallbacks[k].provider in connectors
      {
        assert RoutesOf(m)[k + 1] == m.fallbacks[k];
      }
    }
  }

  method ResolveRoutes(connectors: map<string, Connector>, m: ModelConfig)
    returns (r: Result<seq<ResolvedRoute>, Error>)
    ensures r.Ok? <==> Known(connectors, m)
    ensures r.Ok? ==> r.value == Resolve(connectors, RoutesOf(m))
    ensures r.Err? ==> FirstUnknown(connectors, m, r.error)
  {
    var rs := RoutesOf(m);
    var routes := [];
    for i := 0 to |rs|
      invariant forall j | 0 <= j < i :: rs[j].provider in connectors
      invariant |routes| == i
      invariant forall j | 0 <= j < i :: routes[j] == ResolvedRoute(connectors[rs[j].provider], rs[j].model)
    {
      if rs[i].provider !in connectors {
        UnknownIsFirst(connectors, m, i);
        return Err(UnknownProvider(m, rs[i]));
      }
      routes := routes + [ResolvedRoute(connectors[rs[i].provider], rs[i].model)];
    }
    return Ok(routes);
  }

  /** `Registry::new`: all models resolve, or the first unknown provider of the first model
      that has one is reported. */
  method NewRegistry(connectors: map<string, Connector>, configs: seq<ModelConfig>)
    returns (r: Result<map<string, ResolvedModel>, Error>)
    ensures r.Ok? <==> AllKnown(connectors, configs)
    ensures r.Ok? ==> r.value == ResolveAll(connectors, configs)
    ensures r.Err? ==>
              exists i :: 0 <= i < |configs| && FirstUnknown(connectors, configs[i], r.error)
                && AllKnown(connectors, configs[..i])
  {
    hide FirstUnknown, Known, Resolve;
    var models := map[];
    for i := 0 to |configs|
      invariant AllKnown(connectors, configs[..i])
      invariant models == ResolveAll(connectors, configs[..i])
    {
      var routes := ResolveRoutes(connectors, configs[i]);
      if routes.Err? {
        return Err(routes.error);
      }
      var m := configs[i];
      models := models[m.name := ResolvedModel(routes.value, Statuses(m), m.timeoutMs)];
      assert configs[..i + 1][..i] == configs[..i];
    }
    assert configs[..|configs|] == configs;
    return Ok(models);
  }

  /** Every model a built registry holds has a route to try. */
  lemma BuiltModelsHaveRoutes(connectors: map<string, Connector>, configs: seq<ModelConfig>, name: string)
    requires AllKnown(connectors, configs) && name in ResolveAll(connectors, configs)
    ensures ResolveAll(connectors, configs)[name].routes != []
  {
    hide Known, ResolveAll;
    ResolveAllByLast(connectors, configs, name);
  }

  // ----- dispatch -----

  datatype Response = Response(status: nat, attempts: nat, payload: string)

  datatype Outcome = Responded(response: Response) | Failed(error: Error) | TimedOut

  datatype ChatRequest = ChatRequest(model: string, stream: bool, body: string)
  datatype EmbeddingsRequest = EmbeddingsRequest(model: string, body: string)

  /** A failover audit event. */
  datatype Failover = Failover(virtualModel: string, from: string, to: string, why: Reason)
  datatype Reason = Status(status: nat) | Erred(error: Error) | Timeout(ms: nat)

  const U32_RANGE := 0x1_0000_0000

  function RouteName(m: ResolvedModel, index: nat): string {
    if index < |m.routes| then m.routes[index].connector.name else "none"
  }

  /** A route is passed over when its outcome is retryable and another route is left. */
  predicate Retryable(m: ResolvedModel, o: Outcome) {
    o.Responded? ==> o.response.status in m.retryOn
  }

  function Why(m: ResolvedModel, o: Outcome): Reason {
    match o
    case Responded(response) => Status(response.status)
    case Failed(error) => Erred(error)
    case TimedOut => Timeout(m.timeoutMs)
  }

  /** The outcome of the last route tried, stamped with the number of attempts. */
  function Final(m: ResolvedModel, o: Outcome, tried: nat): Result<Response, Error>
    requires 1 <= tried <= |m.routes|
  {
    match o
    case Responded(response) => Ok(response.(attempts := tried % U32_RANGE))
    case Failed(error) => Err(error)
    case TimedOut =>
      Err(UpstreamTimeout("request timed out on all configured providers (last: "
                          + m.routes[tried - 1].connector.name + ")"))
  }

  const NothingAttempted := ProviderError("no providers were attempted")

  /** What failover means: a prefix of the routes is called, once each and in order, every one
      but the last with a retryable outcome; the last one's outcome is the result; and the audit
      trail links consecutive routes of the prefix. */
  ghost predicate FailsOver(m: ResolvedModel, virtualModel: string, outcomes: seq<Outcome>,
                            result: Result<Response, Error>, called: nat, trail: seq<Failover>)
    requires |outcomes| == |m.routes|
  {
    if m.routes == [] then result == Err(NothingAttempted) && called == 0 && trail == []
    else
      && 1 <= called <= |m.routes|
      && (forall i | 0 <= i < called - 1 :: Retryable(m, outcomes[i]))
      && (called < |m.routes| ==> !Retryable(m, outcomes[called - 1]))
      && result == Final(m, outcomes[called - 1], called)
      && |trail| == called - 1
      && forall i | 0 <= i < called - 1 ::
           trail[i] == Failover(virtualModel, m.routes[i].connector.name, m.routes[i + 1].connector.name,
               Why(m, outcomes[i]))
  }

  method Dispatch(m: ResolvedModel, virtualModel: string, request: ChatRequest, outcomes: seq<Outcome>)
    returns (result: Result<Response, Error>, calls: seq<(Connector, ChatRequest)>, trail: seq<Failover>)
    requires |outcomes| == |m.routes|  // what each connector would answer within the timeout
    ensures FailsOver(m, virtualModel, outcomes, result, |calls|, trail)
    ensures ChatCalls(m, request, calls)
  {
    calls, trail := [], [];
    var last := if |m.routes| == 0 then 0 else |m.routes| - 1;
    for index := 0 to |m.routes|
      invariant |calls| == |trail| == index
      invariant index == |m.routes| ==> index == 0
      invariant forall i | 0 <= i < index ::
                  calls[i] == (m.routes[i].connector, ChatRequest(m.routes[i].model, request.stream, request.body))
      invariant forall i | 0 <= i < index :: Retryable(m, outcomes[i]) && i + 1 < |m.routes|
      invariant forall i | 0 <= i < index ::
                  trail[i] == Failover(virtualModel, m.routes[i].connector.name, m.routes[i + 1].connector.name,
                      Why(m, outcomes[i]))
    {
      var route := m.routes[index];
      var isLast := index == last;
      calls := calls + [(route.connector, ChatRequest(route.model, request.stream, request.body))];
      match outcomes[index]
      case Responded(response) =>
        if !isLast && response.status in m.retryOn {
          trail := trail + [Failover(virtualModel, route.connector.name, RouteName(m, index + 1),
              Status(response.status))];
          continue;
        }
        return Ok(response.(attempts := (index + 1) % U32_RANGE)), calls, trail;
      case Failed(error) =>
        if isLast {
          return Err(error), calls, trail;
        }
        trail := trail + [Failover(virtualModel, route.connector.name, RouteName(m, index + 1), Erred(error))];
      case TimedOut =>
        if isLast {
          return Err(LastTimedOut(route.connector)), calls, trail;
        }
        trail := trail + [Failover(virtualModel, route.connector.name, RouteName(m, index + 1), Timeout(m.timeoutMs))];
    }
    return Err(NothingAttempted), calls, trail;
  }

  method DispatchEmbeddings(m: ResolvedModel, virtualModel: string, request: EmbeddingsRequest, outcomes: seq<Outcome>)
    returns (result: Result<Response, Error>, calls: seq<(Connector, EmbeddingsRequest)>, trail: seq<Failover>)
    requires |outcomes| == |m.routes|
    ensures FailsOver(m, virtualModel, outcomes, result, |calls|, trail)
    ensures EmbeddingsCalls(m, request, calls)
  {
    calls, trail := [], [];
    var last := if |m.routes| == 0 then 0 else |m.routes| - 1;
    for index := 0 to |m.routes|
      invariant |calls| == |trail| == index
      invariant index == |m.routes| ==> index == 0
      invariant forall i | 0 <= i < index ::
                  calls[i] == (m.routes[i].connector, EmbeddingsRequest(m.routes[i].model, request.body))
      invariant forall i | 0 <= i < index :: Retryable(m, outcomes[i]) && i + 1 < |m.routes|
      invariant forall i | 0 <= i < index ::
                  trail[i] == Failover(virtualModel, m.routes[i].connector.name, m.routes[i + 1].connector.name,
                      Why(m, outcomes[i]))
    {
      var route := m.routes[index];
      var isLast := index == last;
      calls := calls + [(route.connector, EmbeddingsRequest(route.model, request.body))];
      match outcomes[index]
      case Responded(response) =>
        if !isLast && response.status in m.retryOn {
          trail := trail + [Failover(virtualModel, route.connector.name, RouteName(m, index + 1),
              Status(response.status))];
          continue;
        }
        return Ok(response.(attempts := (index + 1) % U32_RANGE)), calls, trail;
      case Failed(error) =>
        if isLast {
          return Err(error), calls, trail;
        }
        trail := trail + [Failover(virtualModel, route.connector.name, RouteName(m, index + 1), Erred(error))];
      case TimedOut =>
        if isLast {
          return Err(LastTimedOut(route.connector)), calls, trail;
        }
        trail := trail + [Failover(virtualModel, route.connector.name, RouteName(m, index + 1), Timeout(m.timeoutMs))];
    }
    return Err(NothingAttempted), calls, trail;
  }

  lemma CalledIsFirstStanding(m: ResolvedModel, virtualModel: string, outcomes: seq<Outcome>,
                              result: Result<Response, Error>, called: nat, trail: seq<Failover>, i: nat)
    requires |outcomes| == |m.routes| && i < |outcomes| && !Retryable(m, outcomes[i])
    requires FailsOver(m, virtualModel, outcomes, result, called, trail)
    ensures called <= i + 1
  {
  }

  /** Failover leaves no freedom: the outcomes determine the result, the number of calls and the
      audit trail, so chat and embeddings agree whenever their connectors do. */
  lemma FailoverIsDetermined(m: ResolvedModel, virtualModel: string, outcomes: seq<Outcome>,
                             r1: Result<Response, Error>, n1: nat, t1: seq<Failover>,
                             r2: Result<Response, Error>, n2: nat, t2: seq<Failover>)
    requires |outcomes| == |m.routes|
    requires FailsOver(m, virtualModel, outcomes, r1, n1, t1) && FailsOver(m, virtualModel, outcomes, r2, n2, t2)
    ensures r1 == r2 && n1 == n2 && t1 == t2
  {
    if m.routes != [] {
      if n1 < |m.routes| {
        CalledIsFirstStanding(m, virtualModel, outcomes, r2, n2, t2, n1 - 1);
      }
      if n2 < |m.routes| {
        CalledIsFirstStanding(m, virtualModel, outcomes, r1, n1, t1, n2 - 1);
      }
      assert n1 == n2;
      forall i | 0 <= i < |t1|
        ensures t1[i] == t2[i]
      {
        assert t1[i] == Failover(virtualModel, m.routes[i].connector.name, m.routes[i + 1].connector.name,
            Why(m, outcomes[i]));
      }
    }
  }

  /** The calls a dispatch makes: the routes in order, each with its own model name. */
  ghost predicate ChatCalls(m: ResolvedModel, request: ChatRequest, calls: seq<(Connector, ChatRequest)>) {
    && |calls| <= |m.routes|
    && forall i | 0 <= i < |calls| ::
         calls[i] == (m.routes[i].connector, ChatRequest(m.routes[i].model, request.stream, request.body))
  }

  ghost predicate EmbeddingsCalls(
    m: ResolvedModel, request: EmbeddingsRequest, calls: seq<(Connector, EmbeddingsRequest)>)
  {
    && |calls| <= |m.routes|
    && forall i | 0 <= i < |calls| ::
         calls[i] == (m.routes[i].connector, EmbeddingsRequest(m.routes[i].model, request.body))
  }

  /** Whatever the outcomes, the first call for a served name goes to the primary of its last
      configuration, and the following ones to the fallbacks as they are listed. */
  lemma PrimaryIsCalledFirst(
    connectors: map<string, Connector>, configs: seq<ModelConfig>, name: string, outcomes: seq<Outcome>,
    result: Result<Response, Error>, trail: seq<Failover>, request: ChatRequest, calls: seq<(Connector, ChatRequest)>)
    requires AllKnown(connectors, configs) && name in ResolveAll(connectors, configs)
    requires |outcomes| == |ResolveAll(connectors, configs)[name].routes|
    requires FailsOver(ResolveAll(connectors, configs)[name], name, outcomes, result, |calls|, trail)
    requires ChatCalls(ResolveAll(connectors, configs)[name], request, calls)
    ensures exists i :: 0 <= i < |configs| && IsLast(configs, name, i)
              && (var m := configs[i];
                  && AllProvided(connectors, m)
                  && 1 <= |calls| <= 1 + |m.fallbacks|
                  && calls[0] == (connectors[m.primary.provider],
                                  ChatRequest(m.primary.model, request.stream, request.body))
                  && forall k | 1 <= k < |calls| ::
                       calls[k] == (connectors[m.fallbacks[k - 1].provider],
                                    ChatRequest(m.fallbacks[k - 1].model, request.stream, request.body)))
  {
    var r := ResolveAll(connectors, configs)[name];
    hide AllKnown, ResolveAll, Known, AllProvided, IsLast;
    ResolveAllByLast(connectors, configs, name);
    var i :| 0 <= i < |configs| && IsLast(configs, name, i) && Serves(connectors, configs[i], r);
    var m := configs[i];
    assert |calls| >= 1;
    forall k | 1 <= k < |calls|
      ensures calls[k] == (connectors[m.fallbacks[k - 1].provider],
                           ChatRequest(m.fallbacks[k - 1].model, request.stream, request.body))
    {
      assert r.routes[1 + (k - 1)] == ResolvedRoute(connectors[m.fallbacks[k - 1].provider], m.fallbacks[k - 1].model);
    }
  }

  /** Embeddings requests go the same way. */
  lemma PrimaryIsEmbeddedFirst(
    connectors: map<string, Connector>, configs: seq<ModelConfig>, name: string, outcomes: seq<Outcome>,
    result: Result<Response, Error>, trail: seq<Failover>, request: EmbeddingsRequest,
    calls: seq<(Connector, EmbeddingsRequest)>)
    requires AllKnown(connectors, configs) && name in ResolveAll(connectors, configs)
    requires |outcomes| == |ResolveAll(connectors, configs)[name].routes|
    requires FailsOver(ResolveAll(connectors, configs)[name], name, outcomes, result, |calls|, trail)
    requires EmbeddingsCalls(ResolveAll(connectors, configs)[name], request, calls)
    ensures exists i :: 0 <= i < |configs| && IsLast(configs, name, i)
              && (var m := configs[i];
                  && AllProvided(connectors, m)
                  && 1 <= |calls| <= 1 + |m.fallbacks|
                  && calls[0] == (connectors[m.primary.provider],
                                  EmbeddingsRequest(m.primary.model, request.body))
                  && forall k | 1 <= k < |calls| ::
                       calls[k] == (connectors[m.fallbacks[k - 1].provider],
                                    EmbeddingsRequest(m.fallbacks[k - 1].model, request.body)))
  {
    var r := ResolveAll(connectors, configs)[name];
    hide AllKnown, ResolveAll, Known, AllProvided, IsLast;
    ResolveAllByLast(connectors, configs, name);
    var i :| 0 <= i < |configs| && IsLast(configs, name, i) && Serves(connectors, configs[i], r);
    var m := configs[i];
    assert |calls| >= 1;
    forall k | 1 <= k < |calls|
      ensures calls[k] == (connectors[m.fallbacks[k - 1].provider],
                           EmbeddingsRequest(m.fallbacks[k - 1].model, request.body))
    {
      assert r.routes[1 + (k - 1)] == ResolvedRoute(connectors[m.fallbacks[k - 1].provider], m.fallbacks[k - 1].model);
    }
  }

  /** For a model of a built registry, something is always attempted, and dispatch succeeds iff
      some route gives a response that is not retryable or the last route responds at all. */
  lemma BuiltModelsAreAttempted(connectors: map<string, Connector>, configs: seq<ModelConfig>, name: string,
                                outcomes: seq<Outcome>, result: Result<Response, Error>, called: nat,
                                trail: seq<Failover>)
    requires AllKnown(connectors, configs) && name in ResolveAll(connectors, configs)
    requires |outcomes| == |ResolveAll(connectors, configs)[name].routes|
    requires FailsOver(ResolveAll(connectors, configs)[name], name, outcomes, result, called, trail)
    ensures 1 <= called && outcomes != []
    ensures result.Ok? <==>
            (exists i :: 0 <= i < |outcomes| && !Retryable(ResolveAll(connectors, configs)[name], outcomes[i]))
                            || outcomes[|outcomes| - 1].Responded?
  {
    hide AllKnown, ResolveAll;
    BuiltModelsHaveRoutes(connectors, configs, name);
    var m := ResolveAll(connectors, configs)[name];
    if i: nat :| i < |outcomes| && !Retryable(m, outcomes[i]) {
      CalledIsFirstStanding(m, name, outcomes, result, called, trail, i);
    }
  }
}
