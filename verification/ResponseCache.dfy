/** The response cache across runtime swaps: each runtime owns its own cache, requests keep the
    runtime they loaded, and entries may vanish at any time. */
module ResponseCache {
  import opened Wrappers
  import opened Utf8
  import opened Splitting

  datatype Response = Response(
    status: nat, contentType: Option<string>, body: seq<byte>, provider: string, model: string)

  /** A request as it reaches the cache, its body already rewritten by the plugins. */
  datatype Request = Request(
    keyId: string, model: string, idempotencyKey: Option<string>, body: seq<byte>, stream: bool)

  function Identifier(keyId: string): string {
    if keyId == "" then "anonymous" else keyId
  }

  const NUL: byte := 0

  /** What is hashed: scope, NUL, model, NUL, body. */
  function Preimage(scope: string, model: string, body: seq<byte>): seq<byte> {
    Encode(scope) + [NUL] + Encode(model) + [NUL] + body
  }

  function KeyedBody(r: Request): seq<byte> {
    if r.idempotencyKey.Some? then Encode("idempotency:" + r.idempotencyKey.value) else r.body
  }

  function RequestPreimage(r: Request): seq<byte> {
    Preimage(Identifier(r.keyId), r.model, KeyedBody(r))
  }

  type Hash = seq<byte> -> string

  /** Streaming requests have no cache key. */
  function CacheKey(hash: Hash, r: Request): Option<string> {
    if r.stream then None else Some(hash(RequestPreimage(r)))
  }

  // ----- keys keep virtual keys apart -----

  lemma {:induction false} NulOnlyFromNul(s: string)
    ensures NUL in Encode(s) ==> (0 as char) in s
  {
    if s != "" {
      NulOnlyFromNul(s[1..]);
      NulByte(s[0]);
    }
  }

  lemma NulByte(c: char)
    ensures NUL in EncodeChar(c) ==> c == 0 as char
  {
  }

  predicate NulFree(s: string) {
    (0 as char) !in s
  }

  /** With NUL-free identifiers, two preimages agree iff the identifiers do and the model, a NUL
      and the body do when written together. */
  lemma PreimageSeparatesScopes(a: string, b: string, m: string, n: string, x: seq<byte>, y: seq<byte>)
    requires NulFree(a) && NulFree(b)
    ensures Preimage(a, m, x) == Preimage(b, n, y) <==> a == b && Encode(m) + [NUL] + x == Encode(n) + [NUL] + y
  {
    hide Encode;
    var r, s := Encode(m) + [NUL] + x, Encode(n) + [NUL] + y;
    assert Preimage(a, m, x) == Encode(a) + [NUL] + r;
    assert Preimage(b, n, y) == Encode(b) + [NUL] + s;
    if Encode(a) + [NUL] + r == Encode(b) + [NUL] + s {
      NulOnlyFromNul(a);
      NulOnlyFromNul(b);
      SplitAlike(Encode(a), Encode(b), NUL, r, s);
      DecodeEncode(a);
      DecodeEncode(b);
    }
  }

  ghost predicate CollisionFree(hash: Hash) {
    forall p, q :: hash(p) == hash(q) ==> p == q
  }

  /** The two requests carry one virtual key, an unnamed one counting as `anonymous`. */
  predicate SameKey(r: Request, q: Request) {
    r.keyId == q.keyId || (r.keyId in {"", "anonymous"} && q.keyId in {"", "anonymous"})
  }

  lemma IdentifierTells(r: Request, q: Request)
    ensures Identifier(r.keyId) == Identifier(q.keyId) <==> SameKey(r, q)
    ensures NulFree(r.keyId) ==> NulFree(Identifier(r.keyId))
  {
  }

  /** So requests of different virtual keys never share a cache key. */
  lemma KeysSeparateVirtualKeys(hash: Hash, r: Request, q: Request)
    requires CollisionFree(hash)
    requires NulFree(r.keyId) && NulFree(q.keyId)
    requires CacheKey(hash, r).Some? && CacheKey(hash, r) == CacheKey(hash, q)
    ensures SameKey(r, q)
  {
    hide Preimage, KeyedBody, Identifier, SameKey;
    IdentifierTells(r, q);
    IdentifierTells(q, r);
    PreimageSeparatesScopes(Identifier(r.keyId), Identifier(q.keyId), r.model, q.model, KeyedBody(r), KeyedBody(q));
  }

  /** What two requests must share, besides key and model, to be answered alike: the idempotency
      key if both have one, else the body; a body may also spell the other's idempotency key. */
  predicate SameQuestion(r: Request, q: Request) {
    match (r.idempotencyKey, q.idempotencyKey)
    case (None, None) => r.body == q.body
    case (Some(k), Some(l)) => k == l
    case (Some(k), None) => q.body == Encode("idempotency:" + k)
    case (None, Some(l)) => r.body == Encode("idempotency:" + l)
  }

  lemma IdempotencyKeysApart(k: string, l: string)
    ensures Encode("idempotency:" + k) == Encode("idempotency:" + l) <==> k == l
  {
    hide Encode;
    DecodeEncode("idempotency:" + k);
    DecodeEncode("idempotency:" + l);
    assert ("idempotency:" + k)[12..] == k && ("idempotency:" + l)[12..] == l;
  }

  lemma KeyedBodiesAgree(r: Request, q: Request)
    ensures KeyedBody(r) == KeyedBody(q) <==> SameQuestion(r, q)
  {
    hide Encode;
    if r.idempotencyKey.Some? && q.idempotencyKey.Some? {
      IdempotencyKeysApart(r.idempotencyKey.value, q.idempotencyKey.value);
    }
  }

  lemma ModelsSplit(m: string, n: string, x: seq<byte>, y: seq<byte>)
    requires NulFree(m) && NulFree(n)
    ensures Encode(m) + [NUL] + x == Encode(n) + [NUL] + y <==> m == n && x == y
  {
    hide Encode;
    if Encode(m) + [NUL] + x == Encode(n) + [NUL] + y {
      NulOnlyFromNul(m);
      NulOnlyFromNul(n);
      SplitAlike(Encode(m), Encode(n), NUL, x, y);
      DecodeEncode(m);
      DecodeEncode(n);
    }
  }

  /** The key's identifier and the model of a request are free of NULs. */
  predicate Clean(r: Request) {
    NulFree(r.keyId) && NulFree(r.model)
  }

  predicate SameRequest(r: Request, q: Request) {
    SameKey(r, q) && r.model == q.model && SameQuestion(r, q)
  }

  /** Exactly which requests share a cache key: those of one virtual key and model that ask the
      same; and exactly the streaming ones have none. */
  lemma CacheKeysExactly(hash: Hash, r: Request, q: Request)
    requires CollisionFree(hash) && Clean(r) && Clean(q)
    ensures CacheKey(hash, r) == None <==> r.stream
    ensures !r.stream && !q.stream ==> (CacheKey(hash, r) == CacheKey(hash, q) <==> SameRequest(r, q))
  {
    hide Preimage, KeyedBody, SameQuestion, Identifier, SameKey;
    IdentifierTells(r, q);
    IdentifierTells(q, r);
    PreimageSeparatesScopes(Identifier(r.keyId), Identifier(q.keyId), r.model, q.model, KeyedBody(r), KeyedBody(q));
    ModelsSplit(r.model, q.model, KeyedBody(r), KeyedBody(q));
    KeyedBodiesAgree(r, q);
    if !r.stream && !q.stream && CacheKey(hash, r) == CacheKey(hash, q) {
      assert hash(RequestPreimage(r)) == hash(RequestPreimage(q));
    }
  }

  // ----- requests, swaps and evictions interleaved -----

  datatype Flight = Flight(request: Request, generation: nat, missed: bool)

  /** What clients receive, in order. */
  datatype Event =
    | Hit(request: Request, generation: nat, key: Option<string>, response: Response)
    | Miss(request: Request, generation: nat, key: Option<string>, response: Response)

  type Cache = map<string, Response>

  datatype System = System(caches: seq<Option<Cache>>, flights: map<nat, Flight>, log: seq<Event>)

  datatype Step =
    | Swap(enabled: bool)                      // a freshly built runtime, with its own empty cache or none
    | Load(id: nat, request: Request)          // a request snapshots the current runtime
    | Lookup(id: nat)
    | Reply(id: nat, response: Response, drained: bool)  // upstream answered; its body may fail to drain
    | Fail(id: nat)                            // upstream error
    | Evict(generation: nat, key: string)      // capacity or age

  function Start(enabled: bool): System {
    System([if enabled then Some(map[]) else None], map[], [])
  }

  predicate Enabled(s: System, step: Step) {
    match step
    case Swap(_) => true
    case Load(id, _) => id !in s.flights && s.caches != []
    case Lookup(id) => id in s.flights && !s.flights[id].missed && s.flights[id].generation < |s.caches|
    case Reply(id, _, _) => id in s.flights && s.flights[id].missed && s.flights[id].generation < |s.caches|
    case Fail(id) => id in s.flights && s.flights[id].missed
    case Evict(generation, _) => generation < |s.caches|
  }

  function Apply(hash: Hash, s: System, step: Step): System
    requires Enabled(s, step)
  {
    match step
    case Swap(enabled) => s.(caches := s.caches + [if enabled then Some(map[]) else None])
    case Load(id, request) => s.(flights := s.flights[id := Flight(request, |s.caches| - 1, false)])
    case Lookup(id) =>
      var f := s.flights[id];
      var cache, key := s.caches[f.generation], CacheKey(hash, f.request);
      if cache.Some? && key.Some? && key.value in cache.value then
        s.(flights := s.flights - {id}, log := s.log + [Hit(f.request, f.generation, key, cache.value[key.value])])
      else s.(flights := s.flights[id := f.(missed := true)])
    case Reply(id, response, drained) =>
      var f := s.flights[id];
      var cache, key := s.caches[f.generation], CacheKey(hash, f.request);
      var done := s.(flights := s.flights - {id});
      var answered := done.(log := s.log + [Miss(f.request, f.generation, key, response)]);
      if cache.Some? && key.Some? && response.status == 200 then
        if drained then answered.(caches := s.caches[f.generation := Some(cache.value[key.value := response])])
        else done
      else answered
    case Fail(id) => s.(flights := s.flights - {id})
    case Evict(generation, key) =>
      if s.caches[generation].Some? then s.(caches := s.caches[generation := Some(s.caches[generation].value - {key})])
      else s
  }

  predicate Legal(hash: Hash, enabled: bool, steps: seq<Step>)
    decreases |steps|, 0
  {
    steps == [] ||
    (Legal(hash, enabled, steps[..|steps| - 1])
     && Enabled(Exec(hash, enabled, steps[..|steps| - 1]), steps[|steps| - 1]))
  }

  function Exec(hash: Hash, enabled: bool, steps: seq<Step>): System
    requires Legal(hash, enabled, steps)
    decreases |steps|, 1
  {
    if steps == [] then Start(enabled)
    else Apply(hash, Exec(hash, enabled, steps[..|steps| - 1]), steps[|steps| - 1])
  }

  /** A 200 answer to a request with this cache key, served by this runtime generation. */
  predicate Stores(hash: Hash, e: Event, generation: nat, key: string, response: Response) {
    && e.Miss? && e.generation == generation && e.key == Some(key) && CacheKey(hash, e.request) == Some(key)
    && e.response == response && response.status == 200
  }

  ghost predicate StoredBefore(hash: Hash, log: seq<Event>, n: nat, generation: nat, key: string, response: Response)
    requires n <= |log|
  {
    exists j :: 0 <= j < n && Stores(hash, log[j], generation, key, response)
  }

  ghost predicate CachesBacked(hash: Hash, s: System) {
    forall g, key | 0 <= g < |s.caches| && s.caches[g].Some? && key in s.caches[g].value ::
      StoredBefore(hash, s.log, |s.log|, g, key, s.caches[g].value[key])
  }

  ghost predicate HitsBacked(hash: Hash, s: System) {
    forall i | 0 <= i < |s.log| && s.log[i].Hit? ::
      && s.log[i].key.Some? && CacheKey(hash, s.log[i].request) == s.log[i].key
      && StoredBefore(hash, s.log, i, s.log[i].generation, s.log[i].key.value, s.log[i].response)
  }

  /** Appending to the log keeps what it already shows. */
  lemma StoredStays(hash: Hash, log: seq<Event>, e: Event, n: nat, generation: nat, key: string, response: Response)
    requires n <= |log| && StoredBefore(hash, log, n, generation, key, response)
    ensures StoredBefore(hash, log + [e], n, generation, key, response)
    ensures StoredBefore(hash, log + [e], |log| + 1, generation, key, response)
  {
    var j :| 0 <= j < n && Stores(hash, log[j], generation, key, response);
    assert (log + [e])[j] == log[j];
  }

  lemma BackedStays(hash: Hash, s: System, e: Event)
    requires CachesBacked(hash, s) && HitsBacked(hash, s)
    requires e.Hit? ==> e.key.Some? && CacheKey(hash, e.request) == e.key
                        && StoredBefore(hash, s.log, |s.log|, e.generation, e.key.value, e.response)
    ensures CachesBacked(hash, s.(log := s.log + [e])) && HitsBacked(hash, s.(log := s.log + [e]))
  {
    hide CacheKey;
    var t := s.(log := s.log + [e]);
    forall g, key | 0 <= g < |t.caches| && t.caches[g].Some? && key in t.caches[g].value
      ensures StoredBefore(hash, t.log, |t.log|, g, key, t.caches[g].value[key])
    {
      StoredStays(hash, s.log, e, |s.log|, g, key, s.caches[g].value[key]);
    }
    forall i | 0 <= i < |t.log| && t.log[i].Hit?
      ensures t.log[i].key.Some? && CacheKey(hash, t.log[i].request) == t.log[i].key
      ensures StoredBefore(hash, t.log, i, t.log[i].generation, t.log[i].key.value, t.log[i].response)
    {
      StoredStays(hash, s.log, e, i, t.log[i].generation, t.log[i].key.value, t.log[i].response);
    }
  }

  lemma StepKeepsBacked(hash: Hash, s: System, step: Step)
    requires Enabled(s, step) && CachesBacked(hash, s) && HitsBacked(hash, s)
    ensures CachesBacked(hash, Apply(hash, s, step)) && HitsBacked(hash, Apply(hash, s, step))
  {
    hide CacheKey, StoredBefore;
    var t := Apply(hash, s, step);
    match step
    case Lookup(id) =>
      if t.log != s.log {
        BackedStays(hash, s, t.log[|s.log|]);
      }
    case Reply(id, response, drained) =>
      if t.log != s.log {
        var f := s.flights[id];
        var e := Miss(f.request, f.generation, CacheKey(hash, f.request), response);
        BackedStays(hash, s, e);
        if t.caches != s.caches {
          StoredNow(hash, s.log, e, e.key.value);
        }
      }
    case _ =>
  }

  lemma StoredNow(hash: Hash, log: seq<Event>, e: Event, key: string)
    requires Stores(hash, e, e.generation, key, e.response)
    ensures StoredBefore(hash, log + [e], |log + [e]|, e.generation, key, e.response)
  {
    assert (log + [e])[|log|] == e;
  }

  lemma {:induction false} RunsKeepBacked(hash: Hash, enabled: bool, steps: seq<Step>)
    requires Legal(hash, enabled, steps)
    ensures CachesBacked(hash, Exec(hash, enabled, steps)) && HitsBacked(hash, Exec(hash, enabled, steps))
  {
    hide Apply, Enabled, StoredBefore, CacheKey;
    if steps != [] {
      RunsKeepBacked(hash, enabled, steps[..|steps| - 1]);
      StepKeepsBacked(hash, Exec(hash, enabled, steps[..|steps| - 1]), steps[|steps| - 1]);
    }
  }

  /** Cache coherence: every HIT returns, unchanged, an earlier 200 answer to a request with the
      same cache key that had loaded the same runtime; and, with a collision-free hash and
      NUL-free identifiers and models, to a request of the same virtual key and model that asked
      the same. */
  lemma HitsAreEarlierMisses(hash: Hash, enabled: bool, steps: seq<Step>, i: nat)
    requires Legal(hash, enabled, steps)
    requires i < |Exec(hash, enabled, steps).log| && Exec(hash, enabled, steps).log[i].Hit?
    ensures var log := Exec(hash, enabled, steps).log;
            var hit := log[i];
            exists j :: 0 <= j < i && log[j].Miss? && log[j].generation == hit.generation
              && log[j].response == hit.response && hit.response.status == 200
              && CacheKey(hash, log[j].request) == CacheKey(hash, hit.request)
              && (CollisionFree(hash) && Clean(hit.request) && Clean(log[j].request) ==>
                    SameRequest(log[j].request, hit.request) && !hit.request.stream && !log[j].request.stream)
  {
    hide CacheKey, CollisionFree, Clean, SameRequest, Exec, Legal;
    RunsKeepBacked(hash, enabled, steps);
    var log := Exec(hash, enabled, steps).log;
    var j :| 0 <= j < i && Stores(hash, log[j], log[i].generation, log[i].key.value, log[i].response);
    if CollisionFree(hash) && Clean(log[i].request) && Clean(log[j].request) {
      CacheKeysExactly(hash, log[j].request, log[i].request);
      CacheKeysExactly(hash, log[i].request, log[j].request);
    }
  }

  // ----- and what is stored does get served -----

  /** The cache of this runtime holds this answer under this key. */
  predicate Holds(s: System, generation: nat, key: string, response: Response) {
    && generation < |s.caches| && s.caches[generation].Some?
    && key in s.caches[generation].value && s.caches[generation].value[key] == response
  }

  /** This step evicts the entry or answers another request with the same key. */
  predicate Disturbs(hash: Hash, s: System, step: Step, generation: nat, key: string)
    requires Enabled(s, step)
  {
    match step
    case Evict(g, k) => g == generation && k == key
    case Reply(id, _, _) =>
      s.flights[id].generation == generation && CacheKey(hash, s.flights[id].request) == Some(key)
    case _ => false
  }

  /** A drained 200 answer to a cacheable request is stored in the runtime it loaded. */
  lemma AnswerIsStored(hash: Hash, s: System, id: nat, response: Response)
    requires Enabled(s, Reply(id, response, true)) && response.status == 200
    ensures var f := s.flights[id];
            s.caches[f.generation].Some? && !f.request.stream ==>
              Holds(Apply(hash, s, Reply(id, response, true)), f.generation, CacheKey(hash, f.request).value, response)
  {
  }

  /** It stays there through every step that does not disturb it, runtime swaps included. */
  lemma StoredPersists(hash: Hash, s: System, step: Step, generation: nat, key: string, response: Response)
    requires Enabled(s, step) && Holds(s, generation, key, response)
    requires !Disturbs(hash, s, step, generation, key)
    ensures Holds(Apply(hash, s, step), generation, key, response)
  {
    hide CacheKey;
  }

  /** And while it is there, looking it up is a hit, and nothing else is called. */
  lemma LookupHits(hash: Hash, s: System, id: nat, response: Response)
    requires Enabled(s, Lookup(id))
    ensures var f := s.flights[id];
            var t := Apply(hash, s, Lookup(id));
            var key := CacheKey(hash, f.request);
            if key.Some? && Holds(s, f.generation, key.value, response) then
              t.log == s.log + [Hit(f.request, f.generation, key, response)] && id !in t.flights
            else
              key.None? || s.caches[f.generation].None? || key.value !in s.caches[f.generation].value ==>
                t.log == s.log && id in t.flights && t.flights[id].missed
  {
    hide CacheKey;
  }

  /** A request that loads the runtime in force gets its cache: right after the first of two
      equal requests was answered with a drained 200, the second is served from the cache. */
  lemma SecondRequestHits(hash: Hash, s: System, id: nat, response: Response, q: Request)
    requires Enabled(s, Reply(id, response, true)) && response.status == 200
    requires s.flights[id].generation == |s.caches| - 1 && s.caches[|s.caches| - 1].Some?
    requires !q.stream && CacheKey(hash, s.flights[id].request) == CacheKey(hash, q)
    ensures var stored := Apply(hash, s, Reply(id, response, true));
            && Enabled(stored, Load(id, q))
            && var loaded := Apply(hash, stored, Load(id, q));
            && Enabled(loaded, Lookup(id))
            && Apply(hash, loaded, Lookup(id)).log
               == stored.log + [Hit(q, |s.caches| - 1, CacheKey(hash, q), response)]
  {
    hide RequestPreimage;
    AnswerIsStored(hash, s, id, response);
    var stored := Apply(hash, s, Reply(id, response, true));
    var loaded := Apply(hash, stored, Load(id, q));
    LookupHits(hash, loaded, id, response);
  }
}
