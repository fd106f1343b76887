/**
 * The process-wide response cache: a table from string keys to entries that
 * carry their absolute expiry time. Entries are evicted lazily, when a read
 * finds them expired; there is no sweep and no capacity bound. The clock is
 * an explicit parameter `now` (milliseconds).
 */
module TtlCache {
  import opened Wrappers

  /** The time to live used when none (or a zero one) is given: 5 minutes. */
  const DefaultTtl: int := 5 * 60 * 1000

  /** A cached value and the instant after which it is stale. */
  datatype Entry<V> = Entry(data: V, expiresAt: int)

  /**
   * `options.ttl || defaultTTL`: an absent ttl and a ttl of 0 are both
   * falsy and give the default; any other ttl, negative ones included, is
   * kept as it is.
   */
  function EffectiveTtl(ttl: Option<int>): (t: int)
    ensures t == DefaultTtl <==> (ttl.None? || ttl.value == 0 || ttl.value == DefaultTtl)
    ensures ttl.Some? && ttl.value != 0 ==> t == ttl.value
  {
    match ttl
    case None => DefaultTtl
    case Some(t) => if t == 0 then DefaultTtl else t
  }

  /** The table after storing `data` under `key` at time `now`. */
  function Stored<V>(m: map<string, Entry<V>>, key: string, data: V, ttl: Option<int>, now: int): (m': map<string, Entry<V>>)
    ensures m'.Keys == m.Keys + {key}
    ensures m'[key] == Entry(data, now + EffectiveTtl(ttl))
    ensures forall k :: k in m && k != key ==> m'[k] == m[k]
  {
    m[key := Entry(data, now + EffectiveTtl(ttl))]
  }

  /** An entry is live up to and including its expiry instant. */
  predicate IsLive<V>(e: Entry<V>, now: int) {
    now <= e.expiresAt
  }

  /** The value a read of `key` at time `now` returns. */
  function Lookup<V>(m: map<string, Entry<V>>, key: string, now: int): (r: Option<V>)
    ensures r.Some? <==> key in m && IsLive(m[key], now)
    ensures r.Some? ==> r.value == m[key].data
  {
    if key !in m then None
    else if now > m[key].expiresAt then None
    else Some(m[key].data)
  }

  /** The table after a read of `key` at time `now`: an expired entry is gone. */
  function AfterLookup<V>(m: map<string, Entry<V>>, key: string, now: int): (m': map<string, Entry<V>>)
    ensures key in m && !IsLive(m[key], now) ==> m'.Keys == m.Keys - {key}
    ensures !(key in m && !IsLive(m[key], now)) ==> m' == m
    ensures forall k :: k in m' ==> k in m && m'[k] == m[k]
  {
    if key in m && now > m[key].expiresAt then m - {key} else m
  }

  /** The table after an explicit removal of `key`. */
  function Removed<V>(m: map<string, Entry<V>>, key: string): (m': map<string, Entry<V>>)
    ensures m'.Keys == m.Keys - {key}
    ensures forall k :: k in m' ==> m'[k] == m[k]
  {
    m - {key}
  }

  class Cache<V> {
    var entries: map<string, Entry<V>>

    constructor ()
      ensures entries == map[]
    {
      entries := map[];
    }

    method Set(key: string, data: V, ttl: Option<int>, now: int)
      modifies this
      ensures entries == Stored(old(entries), key, data, ttl, now)
    {
      entries := entries[key := Entry(data, now + EffectiveTtl(ttl))];
    }

    method Get(key: string, now: int) returns (r: Option<V>)
      modifies this
      ensures r == Lookup(old(entries), key, now)
      ensures entries == AfterLookup(old(entries), key, now)
    {
      if key !in entries {
        return None;
      }
      var item := entries[key];
      if now > item.expiresAt {
        entries := entries - {key};
        return None;
      }
      r := Some(item.data);
    }

    method Clear()
      modifies this
      ensures entries == map[]
    {
      entries := map[];
    }

    method Remove(key: string)
      modifies this
      ensures entries == Removed(old(entries), key)
    {
      entries := entries - {key};
    }
  }

  /**
   * The lazily created shared instance (`Cache.instance`). The registry is
   * what a static field is in the source: one per process.
   */
  class CacheRegistry<V> {
    var instance: Cache?<V>

    constructor ()
      ensures instance == null
    {
      instance := null;
    }

    method GetInstance() returns (c: Cache<V>)
      modifies this
      ensures old(instance) != null ==> c == old(instance)
      ensures old(instance) == null ==> fresh(c) && c.entries == map[]
      ensures instance == c
    {
      if instance == null {
        instance := new Cache<V>();
      }
      c := instance;
    }
  }

  /** Every call of `GetInstance` hands out the same cache. */
  method SharedInstance<V>(registry: CacheRegistry<V>) returns (first: Cache<V>, second: Cache<V>)
    modifies registry
    ensures first == second
  {
    first := registry.GetInstance();
    second := registry.GetInstance();
  }

  /**
   * A value set with time to live `ttl` at time `t` is read back at every
   * time up to and including `t + ttl` (the expiry test is strict), and that
   * read leaves the table as it was.
   */
  lemma HitWithinTtl<V>(m: map<string, Entry<V>>, key: string, data: V, ttl: Option<int>, t: int, now: int)
    requires now <= t + EffectiveTtl(ttl)
    ensures Lookup(Stored(m, key, data, ttl, t), key, now) == Some(data)
    ensures AfterLookup(Stored(m, key, data, ttl, t), key, now) == Stored(m, key, data, ttl, t)
  {
  }

  /** A read strictly after the expiry misses and evicts the key. */
  lemma MissAfterExpiry<V>(m: map<string, Entry<V>>, key: string, now: int)
    requires key in m && now > m[key].expiresAt
    ensures Lookup(m, key, now) == None
    ensures key !in AfterLookup(m, key, now)
    ensures AfterLookup(m, key, now) == Removed(m, key)
  {
  }

  /** Reading an absent key misses and changes nothing. */
  lemma MissWhenAbsent<V>(m: map<string, Entry<V>>, key: string, now: int)
    requires key !in m
    ensures Lookup(m, key, now) == None
    ensures AfterLookup(m, key, now) == m
  {
  }

  /** A hit never hands out a stale value. */
  lemma NeverStale<V>(m: map<string, Entry<V>>, key: string, now: int)
    requires Lookup(m, key, now).Some?
    ensures key in m && now <= m[key].expiresAt
    ensures Lookup(m, key, now).value == m[key].data
  {
  }

  /** Reading one key does not change what any other key reads. */
  lemma LookupFramesOtherKeys<V>(m: map<string, Entry<V>>, key: string, other: string, now: int, later: int)
    requires other != key
    ensures Lookup(AfterLookup(m, key, now), other, later) == Lookup(m, other, later)
  {
  }

  /** A set overwrites the entry for its key and leaves every other read alone. */
  lemma SetOverwrites<V>(m: map<string, Entry<V>>, key: string, data: V, ttl: Option<int>, t: int, other: string, now: int)
    requires other != key
    ensures Lookup(Stored(m, key, data, ttl, t), other, now) == Lookup(m, other, now)
    ensures Stored(Stored(m, key, data, ttl, t), key, data, ttl, t) == Stored(m, key, data, ttl, t)
  {
  }

  /** No ttl and a zero ttl both mean five minutes. */
  lemma ZeroTtlMeansDefault<V>(m: map<string, Entry<V>>, key: string, data: V, t: int)
    ensures Stored(m, key, data, Some(0), t) == Stored(m, key, data, None, t)
    ensures Stored(m, key, data, None, t)[key].expiresAt == t + 300000
  {
  }

  /** After a removal the key misses at every time; other keys read as before. */
  lemma RemoveMisses<V>(m: map<string, Entry<V>>, key: string, other: string, now: int)
    ensures Lookup(Removed(m, key), key, now) == None
    ensures other != key ==> Lookup(Removed(m, key), other, now) == Lookup(m, other, now)
    ensures key !in m ==> Removed(m, key) == m
  {
  }

  /** The whole scenario on one cache object: set, then read in time, then read too late. */
  method SetThenGet<V>(c: Cache<V>, key: string, data: V, ttl: Option<int>, t: int)
    modifies c
    ensures key !in c.entries
  {
    c.Set(key, data, ttl, t);
    var expiry := t + EffectiveTtl(ttl);
    var hit := c.Get(key, expiry);
    assert hit == Some(data);
    var miss := c.Get(key, expiry + 1);
    assert miss == None;
  }

  /** After `Clear` every key that had been set misses. */
  method ClearForgetsAll<V>(c: Cache<V>, key: string, data: V, now: int, later: int)
    modifies c
    ensures c.entries == map[]
  {
    c.Set(key, data, None, now);
    c.Clear();
    var r := c.Get(key, later);
    assert r == None;
  }
}
