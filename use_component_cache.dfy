/** The composable callers use: each operation first checks whether it runs
    on the server, then delegates to the cache object, which may be absent
    (on the server the plugin never installs one). */
module UseComponentCache {
  import opened Values
  import opened ComponentCache

  /** The plugin's installation: nothing on the server, a fresh swept cache
      on the client. */
  method Install(isServer: bool, storage: Storage, now: int) returns (c: Cache?)
    ensures isServer ==> c == null
    ensures !isServer ==> c != null && fresh(c)
    ensures !isServer ==> c.storage == SweepSpec(storage, now) && c.loaded == map[]
  {
    if isServer {
      return null;
    }
    c := new Cache(storage, now);
  }

  /** `getFromCache`: `null` on the server; otherwise the cache's answer,
      where a missing cache object or a falsy value becomes `null`. */
  method GetFromCache(isServer: bool, cache: Cache?, key: string, now: int) returns (r: Json)
    modifies cache
    ensures isServer ==> r == Null
    ensures cache == null ==> r == Null
    ensures isServer && cache != null ==> unchanged(cache)
    ensures !isServer && cache != null ==>
              r == OrNull(GetSpec(old(cache.storage), key, now).0)
              && cache.storage == GetSpec(old(cache.storage), key, now).1
              && cache.loaded == old(cache.loaded)
  {
    if isServer {
      return Null;
    }
    if cache == null {
      return Null;
    }
    var v := cache.Get(key, now);
    r := OrNull(v);
  }

  /** `saveToCache`: no cache call on the server; otherwise exactly the
      cache's `set`, or nothing when the cache object is absent. */
  method SaveToCache(isServer: bool, cache: Cache?, key: string, data: Json, now: int, writeFails: bool)
    modifies cache
    ensures (isServer || writeFails) && cache != null ==> unchanged(cache)
    ensures !isServer && cache != null && !writeFails ==>
              cache.storage == SetSpec(old(cache.storage), key, data, now)
              && cache.loaded == old(cache.loaded)[key := data]
  {
    if isServer {
      return;
    }
    if cache != null {
      cache.Set(key, data, now, writeFails);
    }
  }

  /** `isComponentLoaded`: `false` on the server or without a cache object;
      otherwise whether this session's map holds the key. */
  function IsComponentLoaded(isServer: bool, cache: Cache?, key: string): (b: bool)
    reads cache
    ensures isServer ==> !b
    ensures cache == null ==> !b
    ensures !isServer && cache != null ==> (b <==> key in cache.loaded)
  {
    if isServer then false
    else if cache == null then false
    else cache.IsLoaded(key) || false
  }

  /** Round trip through the composable on the client: a saved value is read
      back within the TTL only if it is truthy; `false`, `0`, `""` and
      `null` come back as `null`, because of `|| null`. */
  method SaveThenRead(c: Cache, key: string, data: Json, t: int, later: int) returns (r: Json)
    requires later - t <= CACHE_EXPIRY
    modifies c
    ensures Truthy(data) ==> r == data
    ensures !Truthy(data) ==> r == Null
  {
    SaveToCache(false, c, key, data, t, false);
    SetThenGet(old(c.storage), key, data, t, later);
    r := GetFromCache(false, c, key, later);
  }

  /** The cache-aside example: write `"card:42"`, read it back, see it loaded
      in this session, and miss on a key never written. */
  method CardExample(storage: Storage, now: int) returns (hit: Json, loaded: bool, miss: Json)
    requires forall k :: k in storage ==> !InNamespace(k)
    ensures hit == Obj(map["title" := Str("Foo")])
    ensures loaded
    ensures miss == Null
  {
    var c := Install(false, storage, now);
    var card := Obj(map["title" := Str("Foo")]);
    SaveToCache(false, c, "card:42", card, now, false);
    hit := GetFromCache(false, c, "card:42", now);
    loaded := IsComponentLoaded(false, c, "card:42");
    CacheKeyInjective("card:99", "card:99");
    miss := GetFromCache(false, c, "card:99", now);
  }
}
