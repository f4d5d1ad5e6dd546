/** The virtual key store: keys by token hash. */
module KeyStore {
  import opened Wrappers
  import opened Spend

  datatype VirtualKey = VirtualKey(
    id: string, hash: string, team: string, app: string, env: string, models: seq<string>,
    rateLimitRps: Option<nat>, spendLimit: Option<SpendLimit>, expiresAt: Option<string>)

  // ----- the wire form -----

  datatype WireLimits = WireLimits(requestsPerSecond: Option<nat>, spendLimit: Option<SpendLimit>)
  datatype WireScope = WireScope(team: string, app: string, env: string, allowedModels: seq<string>)
  datatype WireKey = WireKey(
    id: string, hashedKey: string, scope: WireScope, limits: Option<WireLimits>, expiresAt: Option<string>)
  datatype KeySet = KeySet(version: string, keys: seq<WireKey>)

  function MapKey(k: WireKey): VirtualKey {
    VirtualKey(k.id, k.hashedKey, k.scope.team, k.scope.app, k.scope.env, k.scope.allowedModels,
               if k.limits.Some? then k.limits.value.requestsPerSecond else None,
               if k.limits.Some? then k.limits.value.spendLimit else None, k.expiresAt)
  }

  function ToVirtualKeys(keys: seq<WireKey>): seq<VirtualKey> {
    seq(|keys|, i requires 0 <= i < |keys| => MapKey(keys[i]))
  }

  // ----- the store -----

  /** The hash map that collecting a list of keys builds: the last key of a hash stays. */
  function ByHash(keys: seq<VirtualKey>): map<string, VirtualKey> {
    if keys == [] then map[]
    else ByHash(keys[..|keys| - 1])[keys[|keys| - 1].hash := keys[|keys| - 1]]
  }

  /** Every entry sits under its own hash. */
  predicate Consistent(m: map<string, VirtualKey>) {
    forall h | h in m :: m[h].hash == h
  }

  /** The key a token with this hash authenticates as. */
  function Authenticated(m: map<string, VirtualKey>, hash: string): Option<VirtualKey> {
    if hash in m then Some(m[hash]) else None
  }

  predicate HasId(m: map<string, VirtualKey>, hash: string, id: string) {
    hash in m && m[hash].id == id
  }

  /** Removal by id drops one key with this id, whichever the map's iteration finds first. */
  ghost predicate Removal(before: map<string, VirtualKey>, id: string, removed: bool, after: map<string, VirtualKey>) {
    && (removed <==> exists h :: HasId(before, h, id))
    && (removed ==> exists h :: HasId(before, h, id) && after == before - {h})
    && (!removed ==> after == before)
  }

  class KeyStore {
    var byHash: map<string, VirtualKey>

    constructor (keys: seq<VirtualKey>)
      ensures byHash == ByHash(keys)
    {
      byHash := ByHash(keys);
    }

    method Authenticate(hashToken: string -> string, token: string) returns (key: Option<VirtualKey>)
      ensures key == Authenticated(byHash, hashToken(token))
    {
      var hash := hashToken(token);
      key := if hash in byHash then Some(byHash[hash]) else None;
    }

    method Insert(key: VirtualKey)
      modifies this
      ensures byHash == old(byHash)[key.hash := key]
    {
      byHash := byHash[key.hash := key];
    }

    /** One write replaces the whole set. */
    method ReplaceAll(keys: seq<VirtualKey>)
      modifies this
      ensures byHash == ByHash(keys)
    {
      byHash := ByHash(keys);
    }

    method RemoveById(id: string) returns (removed: bool)
      modifies this
      ensures Removal(old(byHash), id, removed, byHash)
    {
      if h :| h in byHash && byHash[h].id == id {
        assert HasId(byHash, h, id);
        byHash := byHash - {h};
        removed := true;
      } else {
        removed := false;
      }
    }
  }

  /** What a replaced store authenticates: exactly the last listed key of each hash, so a key
      left out of the list is revoked. */
  lemma {:induction false} ByHashIsLast(keys: seq<VirtualKey>, hash: string)
    ensures Consistent(ByHash(keys))
    ensures hash in ByHash(keys) <==> exists k :: k in keys && k.hash == hash
    ensures hash in ByHash(keys) ==>
              exists i :: 0 <= i < |keys| && keys[i] == ByHash(keys)[hash]
                && forall j | i < j < |keys| :: keys[j].hash != hash
  {
    if keys != [] {
      var n := |keys| - 1;
      ByHashIsLast(keys[..n], hash);
      assert keys == keys[..n] + [keys[n]];
      if keys[n].hash == hash {
        assert keys[n] in keys;
      } else if hash in ByHash(keys[..n]) {
        var i :| 0 <= i < n && keys[..n][i] == ByHash(keys[..n])[hash]
              && forall j | i < j < n :: keys[..n][j].hash != hash;
        assert keys[i] == ByHash(keys)[hash];
        assert forall j | i < j < |keys| :: j < n ==> keys[j] == keys[..n][j];
      }
    }
  }

  /** Removal by id revokes the id, so that no token authenticates as it any more, exactly when
      at most one stored key has it. */
  lemma RemovalRevokes(before: map<string, VirtualKey>, id: string, removed: bool, after: map<string, VirtualKey>)
    requires Removal(before, id, removed, after)
    ensures (forall h | Authenticated(after, h).Some? :: Authenticated(after, h).value.id != id) <==>
            (forall h, h' | HasId(before, h, id) && HasId(before, h', id) :: h == h')
  {
    if removed {
      var h :| HasId(before, h, id) && after == before - {h};
      if x :| HasId(before, x, id) && x != h {
        assert Authenticated(after, x) == Some(before[x]);
      } else {
        assert forall x | Authenticated(after, x).Some? :: x in before && x != h && !HasId(before, x, id);
      }
    } else {
      assert forall x | Authenticated(after, x).Some? :: !HasId(before, x, id);
    }
  }

  /** Two keys of one id under two hashes, both installed by a replacement: whichever record the
      removal finds, the other keeps authenticating. */
  lemma SharedIdSurvivesRemoval(a: VirtualKey, b: VirtualKey, removed: bool, after: map<string, VirtualKey>)
    requires a.id == b.id && a.hash != b.hash
    requires Removal(ByHash([a, b]), a.id, removed, after)
    ensures removed && (Authenticated(after, a.hash) == Some(a) || Authenticated(after, b.hash) == Some(b))
  {
    var both := ByHash([a, b]);
    assert [a, b][..1] == [a] && [a][..0] == [];
    assert ByHash([a]) == ByHash([])[a.hash := a];
    assert both == ByHash([a])[b.hash := b];
    assert HasId(both, a.hash, a.id);
    assert removed && exists h :: HasId(both, h, a.id) && after == both - {h};
  }

  /** Issuing a key under a new id and hash and removing it by that id leaves the store as it was. */
  lemma IssueThenRemove(m: map<string, VirtualKey>, key: VirtualKey, removed: bool, after: map<string, VirtualKey>)
    requires key.hash !in m && forall h | h in m :: m[h].id != key.id
    requires Removal(m[key.hash := key], key.id, removed, after)
    ensures removed && after == m && Authenticated(m[key.hash := key], key.hash) == Some(key)
  {
    assert HasId(m[key.hash := key], key.hash, key.id);
    assert m[key.hash := key] - {key.hash} == m;
  }
}
