/** The api-mode client: one poll pass over the Control Node's config and keys. The HTTP answer
    to each request is an input; everything the client does with it is modelled. */
module ControlNode {
  import opened Wrappers
  import opened ConfigMap
  import opened Runtime
  import opened KeyStore
  import S = Status
  import Pricing

  /** How one conditional GET ends. `body` is `None` when it does not parse. */
  datatype Answer<T> =
    | Unreachable(detail: string)
    | Ok200(etag: Option<string>, body: Option<T>)
    | NotModified304
    | Unauthorized401
    | OtherStatus(detail: string)

  datatype Fetched<T> = Modified(body: T, etag: Option<string>) | NotModified

  /** The typed outcome of a fetch. The ETag is handed back, not stored. */
  function Fetch<T>(resource: S.Resource, answer: Answer<T>): Result<Fetched<T>, S.SyncFailure> {
    match answer
    case Unreachable(detail) => Err(S.SyncFailure(resource, S.Transport, detail))
    case Ok200(etag, Some(body)) => Ok(Modified(body, etag))
    case Ok200(_, None) => Err(S.SyncFailure(resource, S.InvalidBody, "unparseable body"))
    case NotModified304 => Ok(NotModified)
    case Unauthorized401 => Err(S.SyncFailure(resource, S.Unauthorized, "401 Unauthorized"))
    case OtherStatus(detail) => Err(S.SyncFailure(resource, S.UnexpectedStatus, detail))
  }

  datatype Audit =
    | ControlPlaneSync(ok: bool, failure: Option<S.SyncFailure>)
    | ConfigReloaded(ok: bool, version: string)

  function SyncAudit(t: S.Transition): seq<Audit> {
    match t
    case Quiet => []
    case Degrades(failure) => [ControlPlaneSync(false, Some(failure))]
    case Recovered => [ControlPlaneSync(true, None)]
  }

  /** What a gateway starts from: its local config, the pricing table in the binary and the
      environment variables of its process. */
  datatype Local = Local(base: Config, bundled: Pricing.Table, vars: Vars)

  /** One tick's inputs: the two answers, the build environment and the clock. */
  datatype Input = Input(config: Answer<Bundle>, keys: Answer<KeySet>, env: Env, now: int)

  datatype Node = Node(
    runtime: Runtime, keys: map<string, VirtualKey>, configEtag: Option<string>, keysEtag: Option<string>,
    status: S.Inner, audits: seq<Audit>)

  /** The `If-None-Match` header of a conditional request: the committed ETag of the resource. */
  function IfNoneMatch(n: Node, resource: S.Resource): Option<string> {
    if resource == S.Config then n.configEtag else n.keysEtag
  }

  predicate Builds(local: Local, env: Env, b: Bundle) {
    Buildable(env, Applied(local.base, b))
  }

  function Built(local: Local, b: Bundle): Runtime
    requires exists env :: Builds(local, env, b)
  {
    RuntimeOf(local.bundled, local.vars, Applied(local.base, b))
  }

  function BuildFailure(version: string): S.SyncFailure {
    S.SyncFailure(S.Config, S.BuildFailed, "config " + version)
  }

  function PollConfig(local: Local, n: Node, answer: Answer<Bundle>, env: Env): (Node, S.PollResult) {
    match Fetch(S.Config, answer)
    case Err(failure) => (n, Err(failure))
    case Ok(NotModified) => (n, Ok(None))
    case Ok(Modified(b, etag)) =>
      if Builds(local, env, b) then
        (n.(runtime := Built(local, b), configEtag := etag, audits := n.audits + [ConfigReloaded(true, b.version)]),
         Ok(Some(b.version)))
      else (n.(audits := n.audits + [ConfigReloaded(false, b.version)]), Err(BuildFailure(b.version)))
  }

  function PollKeys(n: Node, answer: Answer<KeySet>): (Node, S.PollResult) {
    match Fetch(S.Keys, answer)
    case Err(failure) => (n, Err(failure))
    case Ok(NotModified) => (n, Ok(None))
    case Ok(Modified(body, etag)) =>
      (n.(keys := ByHash(ToVirtualKeys(body.keys)), keysEtag := etag), Ok(Some(body.version)))
  }

  function Tick(local: Local, n: Node, i: Input): Node {
    var (n1, config) := PollConfig(local, n, i.config, i.env);
    var (n2, keys) := PollKeys(n1, i.keys);
    var (status, t) := S.RecordTick(n2.status, config, keys, i.now);
    n2.(status := status, audits := n2.audits + SyncAudit(t))
  }

  class ControlNodeClient {
    const local: Local
    const runtime: RuntimeHandle
    const keys: KeyStore
    const status: S.StatusHandle
    var configEtag: Option<string>
    var keysEtag: Option<string>
    var audits: seq<Audit>

    ghost function View(): Node
      reads this, runtime, keys, status
    {
      Node(runtime.current, keys.byHash, configEtag, keysEtag, status.View(), audits)
    }

    constructor (local: Local, runtime: RuntimeHandle, keys: KeyStore, status: S.StatusHandle)
      ensures this.local == local && this.runtime == runtime && this.keys == keys && this.status == status
      ensures View() == Node(runtime.current, keys.byHash, None, None, status.View(), [])
    {
      this.local, this.runtime, this.keys, this.status := local, runtime, keys, status;
      configEtag, keysEtag, audits := None, None, [];
    }

    method DoPollConfig(answer: Answer<Bundle>, env: Env) returns (r: S.PollResult)
      modifies this, runtime
      ensures (View(), r) == PollConfig(local, old(View()), answer, env)
    {
      var fetched := Fetch(S.Config, answer);
      if fetched.Err? {
        return Err(fetched.error);
      }
      if fetched.value.NotModified? {
        return Ok(None);
      }
      var b := fetched.value.body;
      var config := ApplyConfig(local.base, b);
      var built := BuildRuntime(env, local.bundled, local.vars, config);
      if built.Ok? {
        runtime.Store(built.value);
        configEtag := fetched.value.etag;  // only now is this version current
        audits := audits + [ConfigReloaded(true, b.version)];
        return Ok(Some(b.version));
      }
      audits := audits + [ConfigReloaded(false, b.version)];
      return Err(BuildFailure(b.version));
    }

    method DoPollKeys(answer: Answer<KeySet>) returns (r: S.PollResult)
      modifies this, keys
      ensures (View(), r) == PollKeys(old(View()), answer)
    {
      var fetched := Fetch(S.Keys, answer);
      if fetched.Err? {
        return Err(fetched.error);
      }
      if fetched.value.NotModified? {
        return Ok(None);
      }
      keys.ReplaceAll(ToVirtualKeys(fetched.value.body.keys));
      keysEtag := fetched.value.etag;
      return Ok(Some(fetched.value.body.version));
    }

    method DoTick(i: Input)
      modifies this, runtime, keys, status
      ensures View() == Tick(local, old(View()), i)
    {
      var config := DoPollConfig(i.config, i.env);
      var ks := DoPollKeys(i.keys);
      var t := status.Record(config, ks, i.now);
      match t
      case Quiet =>
      case Degrades(failure) => audits := audits + [ControlPlaneSync(false, Some(failure))];
      case Recovered => audits := audits + [ControlPlaneSync(true, None)];
    }
  }
}
