/**
 * The time-bounded cache of app.js: entries live in localStorage under `quran_cache_<key>`
 * as a timestamp and a payload, and a read more than 24 hours after the write evicts the
 * entry. localStorage is a map from storage keys to stored items; the clock is a parameter.
 */
module Cache {
  import opened Wrappers

  const CachePrefix := "quran_cache_"

  /** 24 hours, in milliseconds. */
  const CacheDuration: int := 24 * 60 * 60 * 1000

  /** What one localStorage slot under the prefix holds: a saved item, or text that does not parse. */
  datatype Stored<D> = Item(timestamp: int, data: D) | Unreadable

  /** The localStorage key of a cache key. */
  function StorageKey(key: string): (sk: string)
    ensures |sk| == |CachePrefix| + |key| && sk[..|CachePrefix|] == CachePrefix && sk[|CachePrefix|..] == key
  {
    CachePrefix + key
  }

  /** Distinct cache keys occupy distinct storage slots. */
  lemma StorageKeyInjective(k1: string, k2: string)
    ensures StorageKey(k1) == StorageKey(k2) ==> k1 == k2
  {
    if StorageKey(k1) == StorageKey(k2) {
      assert k1 == StorageKey(k1)[|CachePrefix|..];
    }
  }

  /** An item written at `timestamp` may still be served at `now`. */
  predicate Fresh(timestamp: int, now: int)
  {
    now - timestamp <= CacheDuration
  }

  /** What loadFromCache returns for `key` at time `now`. */
  function Lookup<D>(storage: map<string, Stored<D>>, key: string, now: int): Option<D>
  {
    var sk := StorageKey(key);
    if sk !in storage then None
    else match storage[sk]
      case Unreadable => None
      case Item(timestamp, data) => if Fresh(timestamp, now) then Some(data) else None
  }

  /** localStorage after loadFromCache: a stale item is removed, anything else is left alone. */
  function AfterLookup<D>(storage: map<string, Stored<D>>, key: string, now: int): map<string, Stored<D>>
  {
    var sk := StorageKey(key);
    if sk in storage && storage[sk].Item? && !Fresh(storage[sk].timestamp, now) then storage - {sk}
    else storage
  }

  /** localStorage after saveToCache(key, data) at time now. */
  function AfterSave<D>(storage: map<string, Stored<D>>, key: string, data: D, now: int): map<string, Stored<D>>
  {
    storage[StorageKey(key) := Item(now, data)]
  }

  class TimedCache<D> {
    /** The slots of localStorage. */
    var storage: map<string, Stored<D>>

    constructor(initial: map<string, Stored<D>>)
      ensures storage == initial
    {
      storage := initial;
    }

    /** saveToCache: record the payload with the current time, replacing any earlier entry. */
    method Save(key: string, data: D, now: int)
      modifies this
      ensures storage == AfterSave(old(storage), key, data, now)
    {
      storage := storage[StorageKey(key) := Item(now, data)];
    }

    /** loadFromCache: the payload while fresh; a stale entry is removed and reads as absent. */
    method Load(key: string, now: int) returns (r: Option<D>)
      modifies this
      ensures r == Lookup(old(storage), key, now)
      ensures storage == AfterLookup(old(storage), key, now)
    {
      var sk := StorageKey(key);
      if sk !in storage {
        return None;
      }
      var cached := storage[sk];
      if cached.Unreadable? {
        return None;
      }
      if now - cached.timestamp > CacheDuration {
        storage := storage - {sk};
        return None;
      }
      return Some(cached.data);
    }
  }

  // ---------------------------------------------------------------------------
  // Properties
  // ---------------------------------------------------------------------------

  /** A read returns the stored payload exactly when a readable item is there and is at most 24 hours old. */
  lemma LookupFreshIff<D>(storage: map<string, Stored<D>>, key: string, now: int)
    ensures Lookup(storage, key, now).Some? <==>
      (StorageKey(key) in storage && storage[StorageKey(key)].Item?
       && now - storage[StorageKey(key)].timestamp <= CacheDuration)
    ensures Lookup(storage, key, now).Some? ==> Lookup(storage, key, now).value == storage[StorageKey(key)].data
  {
  }

  /** A stale read removes that one slot and leaves every other slot as it was. */
  lemma StaleReadEvicts<D>(storage: map<string, Stored<D>>, key: string, now: int)
    requires StorageKey(key) in storage && storage[StorageKey(key)].Item?
    requires now - storage[StorageKey(key)].timestamp > CacheDuration
    ensures Lookup(storage, key, now) == None
    ensures StorageKey(key) !in AfterLookup(storage, key, now)
    ensures forall sk :: sk != StorageKey(key) ==>
      (sk in AfterLookup(storage, key, now) <==> sk in storage)
      && (sk in storage ==> AfterLookup(storage, key, now)[sk] == storage[sk])
  {
  }

  /** A read that serves data, or finds nothing, or finds an unreadable slot, changes nothing. */
  lemma NonStaleReadKeeps<D>(storage: map<string, Stored<D>>, key: string, now: int)
    requires !(StorageKey(key) in storage && storage[StorageKey(key)].Item?
               && now - storage[StorageKey(key)].timestamp > CacheDuration)
    ensures AfterLookup(storage, key, now) == storage
  {
  }

  /** Save then load within the window returns what was saved, and the load removes nothing. */
  lemma SaveThenLoad<D>(storage: map<string, Stored<D>>, key: string, data: D, saved: int, now: int)
    requires now - saved <= CacheDuration
    ensures Lookup(AfterSave(storage, key, data, saved), key, now) == Some(data)
    ensures AfterLookup(AfterSave(storage, key, data, saved), key, now) == AfterSave(storage, key, data, saved)
  {
  }

  /** Save then load after the window returns nothing and leaves the slot empty. */
  lemma SaveThenExpire<D>(storage: map<string, Stored<D>>, key: string, data: D, saved: int, now: int)
    requires now - saved > CacheDuration
    ensures Lookup(AfterSave(storage, key, data, saved), key, now) == None
    ensures StorageKey(key) !in AfterLookup(AfterSave(storage, key, data, saved), key, now)
  {
  }

  /** A second save of the same key replaces the first entirely. */
  lemma SaveOverwrites<D>(storage: map<string, Stored<D>>, key: string, d1: D, t1: int, d2: D, t2: int)
    ensures AfterSave(AfterSave(storage, key, d1, t1), key, d2, t2) == AfterSave(storage, key, d2, t2)
  {
  }

  /** Saving one key does not change what another key reads. */
  lemma SaveIsolated<D>(storage: map<string, Stored<D>>, key: string, other: string, data: D, saved: int, now: int)
    requires other != key
    ensures Lookup(AfterSave(storage, key, data, saved), other, now) == Lookup(storage, other, now)
  {
    StorageKeyInjective(key, other);
  }

  /** The round trip through the class: Save, then Load within the window, yields the payload. */
  method SaveLoadRoundTrip<D>(cache: TimedCache<D>, key: string, data: D, saved: int, now: int)
    returns (r: Option<D>)
    requires now - saved <= CacheDuration
    modifies cache
    ensures r == Some(data)
    ensures cache.storage == old(cache.storage)[StorageKey(key) := Item(saved, data)]
  {
    cache.Save(key, data, saved);
    SaveThenLoad(old(cache.storage), key, data, saved, now);
    r := cache.Load(key, now);
  }
}
