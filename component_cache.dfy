/** The client-side component result cache: a persistent tier (browser
    storage, one namespace under a reserved key prefix) and a session tier
    (an in-memory map of what was written in this page load). */
module ComponentCache {
  import opened Values

  const CACHE_VERSION: string := "1.0.0"
  const CACHE_PREFIX: string := "unite-ui-component-cache:"
  /** Seven days, in milliseconds. */
  const CACHE_EXPIRY: int := 7 * 24 * 60 * 60 * 1000

  /** What a storage key holds, as `JSON.parse` sees it: a record with the
      fields `data`, `version` and `timestamp`; text that does not parse, or
      parses to `null` (destructuring it throws); or the empty string. A value
      that parses to anything else without those fields reads as an `Entry`
      whose version is not `CACHE_VERSION`. */
  datatype Stored =
    | Entry(data: Json, version: string, timestamp: int)
    | Corrupt
    | Empty

  type Storage = map<string, Stored>

  /** The storage key under which the cache keeps `key`. */
  function CacheKey(key: string): string
  {
    CACHE_PREFIX + key
  }

  /** The keys of the cache's own namespace. */
  predicate InNamespace(k: string)
  {
    StartsWith(k, CACHE_PREFIX)
  }

  /** The read-time validity test: a wrong version, or an age strictly greater
      than `CACHE_EXPIRY`. */
  predicate Stale(version: string, timestamp: int, now: int)
    ensures version != CACHE_VERSION ==> Stale(version, timestamp, now)
    ensures version == CACHE_VERSION ==>
              (Stale(version, timestamp, now) <==> now > timestamp + CACHE_EXPIRY)
  {
    version != CACHE_VERSION || now - timestamp > CACHE_EXPIRY
  }

  /** Whether the start-up sweep removes a stored value: stale entries, and
      values that do not parse. The empty string reads as `"{}"`, whose
      version is missing, so it goes too. */
  predicate Swept(v: Stored, now: int)
    ensures !Swept(v, now) <==> v.Entry? && !Stale(v.version, v.timestamp, now)
  {
    match v
    case Entry(_, version, timestamp) => Stale(version, timestamp, now)
    case Corrupt => true
    case Empty => true
  }

  /** What `getCache(key)` returns at time `now`, and the storage afterwards.
      A miss returns `null`. */
  function GetSpec(storage: Storage, key: string, now: int): (r: (Json, Storage))
    ensures r.1 == storage || r.1 == storage - {CacheKey(key)}
    ensures r.0 != Null ==> r.1 == storage && CacheKey(key) in storage
                            && storage[CacheKey(key)].Entry? && storage[CacheKey(key)].data == r.0
  {
    var ck := CacheKey(key);
    if ck !in storage then (Null, storage)
    else match storage[ck]
      case Empty => (Null, storage)
      case Corrupt => (Null, storage)
      case Entry(data, version, timestamp) =>
        if Stale(version, timestamp, now) then (Null, storage - {ck})
        else (data, storage)
  }

  /** The storage after `set(key, data)` at time `now` succeeds. */
  function SetSpec(storage: Storage, key: string, data: Json, now: int): (r: Storage)
    ensures r.Keys == storage.Keys + {CacheKey(key)}
    ensures r[CacheKey(key)] == Entry(data, CACHE_VERSION, now)
  {
    storage[CacheKey(key) := Entry(data, CACHE_VERSION, now)]
  }

  /** The storage after the start-up sweep at time `now`. */
  function SweepSpec(storage: Storage, now: int): (r: Storage)
    ensures r.Keys <= storage.Keys
    ensures forall k :: k in r ==> r[k] == storage[k] && !(InNamespace(k) && Swept(r[k], now))
  {
    map k | k in storage && !(InNamespace(k) && Swept(storage[k], now)) :: storage[k]
  }

  class Cache {
    /** The persistent tier: the whole of browser storage, shared with other code. */
    var storage: Storage
    /** The session tier, `loadedComponents`. */
    var loaded: map<string, Json>

    /** The plugin's start-up on the client: an empty session map, then the
        sweep over what storage already holds. */
    constructor (initial: Storage, now: int)
      ensures storage == SweepSpec(initial, now)
      ensures loaded == map[]
    {
      storage := initial;
      loaded := map[];
      new;
      Cleanup(now);
    }

    /** `getCache`: lazy eviction of the entry under `key`'s storage key. */
    method Get(key: string, now: int) returns (r: Json)
      modifies this`storage
      ensures (r, storage) == GetSpec(old(storage), key, now)
    {
      var cacheKey := CacheKey(key);
      if cacheKey !in storage {
        return Null;
      }
      match storage[cacheKey]
      case Empty => r := Null;
      case Corrupt => r := Null;
      case Entry(data, version, timestamp) =>
        if version != CACHE_VERSION || now - timestamp > CACHE_EXPIRY {
          storage := storage - {cacheKey};
          r := Null;
        } else {
          r := data;
        }
    }

    /** `setCache`: the storage write, then the session map. A write that
        throws (`writeFails`, a full quota) skips the session map as well. */
    method Set(key: string, data: Json, now: int, writeFails: bool)
      modifies this
      ensures writeFails ==> unchanged(this)
      ensures !writeFails ==> storage == SetSpec(old(storage), key, data, now)
      ensures !writeFails ==> loaded == old(loaded)[key := data]
    {
      var cacheKey := CacheKey(key);
      if writeFails {
        return;
      }
      storage := storage[cacheKey := Entry(data, CACHE_VERSION, now)];
      loaded := loaded[key := data];
    }

    /** `isInMemoryCache`: a lookup in the session map alone. */
    function IsLoaded(key: string): (b: bool)
      reads this`loaded
      ensures b <==> key in loaded
    {
      key in loaded
    }

    /** `cleanupCache`: visits every storage key once, in whatever order
        `Object.keys` gives, and removes the swept ones of the namespace. */
    method Cleanup(now: int)
      modifies this`storage
      ensures storage == SweepSpec(old(storage), now)
    {
      ghost var s0 := storage;
      var keys := storage.Keys;
      while keys != {}
        invariant keys <= s0.Keys
        invariant storage.Keys <= s0.Keys
        invariant forall k :: k in s0 ==>
          (k in storage <==> (k in keys || !(InNamespace(k) && Swept(s0[k], now))))
        invariant forall k :: k in storage ==> storage[k] == s0[k]
        decreases keys
      {
        var key :| key in keys;
        if StartsWith(key, CACHE_PREFIX) {
          match storage[key]
          case Entry(_, version, timestamp) =>
            if version != CACHE_VERSION || now - timestamp > CACHE_EXPIRY {
              storage := storage - {key};
            }
          case Corrupt => storage := storage - {key};
          case Empty => storage := storage - {key};
        }
        keys := keys - {key};
      }
    }
  }

  // ---------------------------------------------------------------------
  // Properties of the specification functions.

  /** Distinct keys get distinct storage keys, all inside the namespace. */
  lemma CacheKeyInjective(a: string, b: string)
    ensures InNamespace(CacheKey(a))
    ensures CacheKey(a) == CacheKey(b) ==> a == b
  {
    assert CacheKey(a)[..|CACHE_PREFIX|] == CACHE_PREFIX;
    if CacheKey(a) == CacheKey(b) {
      assert a == CacheKey(a)[|CACHE_PREFIX|..];
      assert b == CacheKey(b)[|CACHE_PREFIX|..];
    }
  }

  /** `get` touches no storage key but its own: every other key keeps its
      value, and nothing is added. */
  lemma GetTouchesOnlyItsKey(s: Storage, key: string, now: int, k: string)
    requires k != CacheKey(key)
    ensures GetSpec(s, key, now).1.Keys <= s.Keys
    ensures k in GetSpec(s, key, now).1 <==> k in s
    ensures k in s ==> GetSpec(s, key, now).1[k] == s[k]
  {
  }

  /** `set` touches no storage key but its own. */
  lemma SetTouchesOnlyItsKey(s: Storage, key: string, data: Json, now: int, k: string)
    requires k != CacheKey(key)
    ensures SetSpec(s, key, data, now).Keys == s.Keys + {CacheKey(key)}
    ensures k in SetSpec(s, key, data, now) <==> k in s
    ensures k in s ==> SetSpec(s, key, data, now)[k] == s[k]
  {
  }

  /** A key with nothing stored reads as `null` and changes nothing. */
  lemma GetMissing(s: Storage, key: string, now: int)
    requires CacheKey(key) !in s
    ensures GetSpec(s, key, now) == (Null, s)
  {
  }

  /** An unparseable or empty stored value reads as `null` and is left in place. */
  lemma GetKeepsUnparseable(s: Storage, key: string, now: int)
    requires CacheKey(key) in s && !s[CacheKey(key)].Entry?
    ensures GetSpec(s, key, now) == (Null, s)
  {
  }

  /** An entry is returned exactly when its version is current and its age is
      at most `CACHE_EXPIRY`; otherwise it reads as `null` and is removed. */
  lemma GetEntry(s: Storage, key: string, now: int, data: Json, version: string, t: int)
    requires CacheKey(key) in s && s[CacheKey(key)] == Entry(data, version, t)
    ensures version == CACHE_VERSION && now - t <= CACHE_EXPIRY ==>
              GetSpec(s, key, now) == (data, s)
    ensures version != CACHE_VERSION || now - t > CACHE_EXPIRY ==>
              GetSpec(s, key, now) == (Null, s - {CacheKey(key)})
  {
  }

  /** The expiry test is strict: an entry whose age is exactly the TTL is
      still served, one millisecond later it is evicted. */
  lemma ExpiryBoundary(s: Storage, key: string, data: Json, t: int)
    requires CacheKey(key) in s && s[CacheKey(key)] == Entry(data, CACHE_VERSION, t)
    ensures GetSpec(s, key, t + CACHE_EXPIRY) == (data, s)
    ensures GetSpec(s, key, t + CACHE_EXPIRY + 1) == (Null, s - {CacheKey(key)})
  {
  }

  /** An entry written under another version is unreadable within its TTL. */
  lemma VersionInvalidates(s: Storage, key: string, data: Json, version: string, t: int, now: int)
    requires version != CACHE_VERSION
    requires CacheKey(key) in s && s[CacheKey(key)] == Entry(data, version, t)
    requires now - t <= CACHE_EXPIRY
    ensures GetSpec(s, key, now) == (Null, s - {CacheKey(key)})
  {
  }

  /** Round trip: what `set` wrote at `t` is what `get` reads at any `t'` no
      later than the TTL, and the read leaves storage as the write left it. */
  lemma SetThenGet(s: Storage, key: string, data: Json, t: int, t': int)
    requires t' - t <= CACHE_EXPIRY
    ensures GetSpec(SetSpec(s, key, data, t), key, t') == (data, SetSpec(s, key, data, t))
  {
  }

  /** A write replaces any earlier entry under the same key. */
  lemma SetOverwrites(s: Storage, key: string, d1: Json, d2: Json, t1: int, t2: int)
    ensures SetSpec(SetSpec(s, key, d1, t1), key, d2, t2) == SetSpec(s, key, d2, t2)
  {
  }

  /** A second `get` right after the first returns the same value and changes
      nothing more: an eviction happens at most once. */
  lemma GetIdempotent(s: Storage, key: string, now: int)
    ensures GetSpec(GetSpec(s, key, now).1, key, now) == GetSpec(s, key, now)
  {
  }

  /** The sweep never looks outside the namespace. */
  lemma SweepKeepsForeignKeys(s: Storage, now: int, k: string)
    requires !InNamespace(k)
    ensures k in SweepSpec(s, now) <==> k in s
    ensures k in s ==> SweepSpec(s, now)[k] == s[k]
  {
  }

  /** Inside the namespace the sweep keeps exactly the current-version
      entries within their TTL, unchanged. */
  lemma SweepKeepsExactlyValid(s: Storage, now: int, k: string)
    requires k in s && InNamespace(k)
    ensures k in SweepSpec(s, now) <==>
              s[k].Entry? && !Stale(s[k].version, s[k].timestamp, now)
    ensures k in SweepSpec(s, now) ==> SweepSpec(s, now)[k] == s[k]
  {
  }

  /** Right after the sweep, a `get` at the same instant evicts nothing. */
  lemma GetAfterSweepEvictsNothing(s: Storage, key: string, now: int)
    ensures GetSpec(SweepSpec(s, now), key, now).1 == SweepSpec(s, now)
  {
    var sw := SweepSpec(s, now);
    var ck := CacheKey(key);
    CacheKeyInjective(key, key);
    if ck in sw {
      assert s[ck] == sw[ck];
      assert sw[ck].Entry? && !Stale(sw[ck].version, sw[ck].timestamp, now);
    }
  }

  /** Sweeping twice at the same instant is sweeping once. */
  lemma SweepIdempotent(s: Storage, now: int)
    ensures SweepSpec(SweepSpec(s, now), now) == SweepSpec(s, now)
  {
  }

  /** After `set`, `isLoaded` holds whatever storage later does: `get` and
      the sweep only assign `storage` (their frames are `this`storage`). */
  method SessionOutlivesExpiry(c: Cache, key: string, data: Json, t: int, later: int)
    returns (before: bool, after: bool)
    modifies c
    ensures before && after
  {
    c.Set(key, data, t, false);
    before := c.IsLoaded(key);
    var r := c.Get(key, later);
    c.Cleanup(later);
    after := c.IsLoaded(key);
  }
}
