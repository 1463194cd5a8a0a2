/**
 * `MemoryCacheService`: the cache service whose methods update the backing
 * memory cache, the metadata index, the counters and the compaction time in
 * place. Each method is proved to leave the state its `CacheModel` function
 * describes, and to keep the invariant.
 */
module MemoryCacheService {
  import opened Wrappers
  import opened Int32
  import opened Errors
  import opened CacheDiagnostics
  import opened CacheModel
  import opened CacheLaws

  class MemoryCacheService {
    // The backing memory cache: its entries and the units they hold.
    var store: map<string, StoreEntry>
    var storeSize: int
    // The service's own state.
    var entryMetadata: map<string, CacheEntryInfo>
    var hitCount: Int32
    var missCount: Int32
    var lastCompaction: int
    // The memory cache's size limit, copied from `CacheSizeLimit`.
    const sizeLimit: int

    function State(): CacheState
      reads this
    {
      CacheState(store, storeSize, entryMetadata, hitCount, missCount, lastCompaction, sizeLimit)
    }

    ghost predicate Valid()
      reads this
    {
      Inv(State())
    }

    /** A service over an empty memory cache; the compaction time starts at the construction time. */
    constructor(cacheSizeLimit: int, now: int)
      requires 0 <= cacheSizeLimit
      ensures Valid()
      ensures State() == Empty(cacheSizeLimit, now)
    {
      store := map[];
      storeSize := 0;
      entryMetadata := map[];
      hitCount := 0;
      missCount := 0;
      lastCompaction := now;
      sizeLimit := cacheSizeLimit;
    }

    /** The callback registered with every entry. */
    method PostEvictionCallback(evictedKey: string, reason: EvictionReason, now: int)
      modifies this
      ensures State() == EvictionCallback(old(State()), evictedKey, reason, now)
    {
      entryMetadata := entryMetadata - {evictedKey};
      if reason == Capacity {
        lastCompaction := now;
      }
    }

    /**
     * The memory cache drops an entry and raises its callback: on a read past
     * its expiry, on a remove, on a rejected replacement, and when its own
     * compaction or expiration scan picks the entry.
     */
    method Evict(key: string, reason: EvictionReason, now: int)
      requires Valid() && key in store
      modifies this
      ensures Valid()
      ensures State() == RemoveEntry(old(State()), key, reason, now)
    {
      RemoveEntryInv(State(), key, reason, now);
      storeSize := storeSize - store[key].units;
      store := store - {key};
      PostEvictionCallback(key, reason, now);
    }

    /** The memory cache's `TryGetValue`. */
    method TryGetValue(key: string, now: int) returns (found: Option<Payload>)
      requires Valid()
      modifies this
      ensures Valid()
      ensures (State(), found) == CacheModel.TryGetValue(old(State()), key, now)
    {
      if key !in store {
        found := None;
      } else if now < store[key].expiresAt {
        found := Some(store[key].value);
      } else {
        Evict(key, Expired, now);
        found := None;
      }
    }

    /** The memory cache's `Set` under its size limit. */
    method StoreValue(key: string, entry: StoreEntry, now: int)
      requires Valid()
      modifies this
      ensures Valid()
      ensures State() == CacheModel.StoreValue(old(State()), key, entry, now)
    {
      StoreValueInv(State(), key, entry, now);
      var hadPrior := key in store;
      if storeSize + entry.units <= sizeLimit {
        var prior := if hadPrior then store[key].units else 0;
        store := store[key := entry];
        storeSize := storeSize + entry.units - prior;
        if hadPrior {
          PostEvictionCallback(key, Replaced, now);
        }
      } else {
        PostEvictionCallback(key, Capacity, now);
        if hadPrior {
          Evict(key, Replaced, now);
        }
      }
    }

    method GetAsync(key: string, kind: Kind, now: int) returns (v: Payload)
      requires Valid()
      modifies this
      ensures Valid()
      ensures (State(), v) == Get(old(State()), key, kind, now)
    {
      ReadsKeepInvariant(State(), key, kind, now);
      var found := TryGetValue(key, now);
      if found.Some? {
        hitCount := Increment(hitCount);
        v := Cast(found.value, kind);
      } else {
        missCount := Increment(missCount);
        v := Null;
      }
    }

    method SetAsync(key: string, value: Payload, kind: Kind, ttl: int, now: int) returns (outcome: Outcome<Error>)
      requires Valid()
      modifies this
      ensures Valid()
      ensures Set(old(State()), key, value, kind, ttl, now).Failure? ==>
        outcome == Fail(Set(old(State()), key, value, kind, ttl, now).error) && State() == old(State())
      ensures Set(old(State()), key, value, kind, ttl, now).Success? ==>
        outcome == Pass && State() == Set(old(State()), key, value, kind, ttl, now).value
    {
      SetKeepsInvariant(State(), key, value, kind, ttl, now);
      var estimatedSize := EstimateObjectSize(value);
      if ttl <= 0 {
        return Fail(ExpirationOutOfRange(ttl));
      }
      var entryInfo := CacheEntryInfo(key, now, Some(now + ttl), estimatedSize, TypeName(kind));
      StoreValue(key, StoreEntry(value, now + ttl, SizeUnits(estimatedSize)), now);
      entryMetadata := entryMetadata[key := entryInfo];
      outcome := Pass;
    }

    method RemoveAsync(key: string, now: int)
      requires Valid()
      modifies this
      ensures Valid()
      ensures State() == Remove(old(State()), key, now)
    {
      if key in store {
        Evict(key, Removed, now);
      }
    }

    method GetOrSetAsync(key: string, kind: Kind, fetch: () -> Result<Payload, Error>, ttl: int, now: int)
      returns (r: Result<Payload, Error>, fetched: bool)
      requires Valid()
      modifies this
      ensures Valid()
      ensures (State(), r, fetched) == GetOrSet(old(State()), key, kind, fetch, ttl, now)
    {
      var cached := GetAsync(key, kind, now);
      if !cached.Null? {
        return Success(cached), false;
      }
      var value := fetch();
      if value.Failure? {
        return Failure(value.error), true;
      }
      var outcome := SetAsync(key, value.value, kind, ttl, now);
      if outcome.Fail? {
        return Failure(outcome.error), true;
      }
      return Success(value.value), true;
    }

    method GetOrSetNullableAsync(key: string, kind: Kind, fetch: () -> Result<Payload, Error>, ttl: int, now: int)
      returns (r: Result<Payload, Error>, fetched: bool)
      requires Valid()
      modifies this
      ensures Valid()
      ensures (State(), r, fetched) == GetOrSetNullable(old(State()), key, kind, fetch, ttl, now)
    {
      var wrapper := GetAsync(key, WrapperKind(kind), now);
      if wrapper.NullableWrapper? {
        return Success(wrapper.inner), false;
      }
      var value := fetch();
      if value.Failure? {
        return Failure(value.error), true;
      }
      var outcome := SetAsync(key, NullableWrapper(kind, value.value), WrapperKind(kind), ttl, now);
      if outcome.Fail? {
        return Failure(outcome.error), true;
      }
      return Success(value.value), true;
    }

    method ContainsKey(key: string, now: int) returns (found: bool)
      requires Valid()
      modifies this
      ensures Valid()
      ensures (State(), found) == Contains(old(State()), key, now)
    {
      ReadsKeepInvariant(State(), key, StringKind, now);
      var value := TryGetValue(key, now);
      found := value.Some?;
    }

    method ClearCache()
      requires Valid()
      modifies this
      ensures Valid()
      ensures State() == Clear(old(State()))
    {
      entryMetadata := map[];
    }

    /** The first half of `GetDiagnostics`: remove the metadata of every expired entry. */
    method RemoveExpiredMetadata(now: int)
      requires Valid()
      modifies this
      ensures Valid()
      ensures State() == Sweep(old(State()), now)
      ensures forall k :: k in entryMetadata ==> !IsExpired(entryMetadata[k], now)
    {
      SweepRemovesExactlyExpired(State(), now);
      var expiredKeys := set k | k in entryMetadata && IsExpired(entryMetadata[k], now);
      var pending := expiredKeys;
      while pending != {}
        invariant pending <= expiredKeys
        invariant State() == old(State()).(metadata := old(entryMetadata) - (expiredKeys - pending))
        decreases pending
      {
        var k :| k in pending;
        entryMetadata := entryMetadata - {k};
        pending := pending - {k};
        assert old(entryMetadata) - (expiredKeys - (pending + {k})) - {k} == old(entryMetadata) - (expiredKeys - pending);
      }
      assert entryMetadata == Sweep(old(State()), now).metadata;
    }

    /**
     * `GetDiagnostics`: removes the metadata of expired entries, then reports
     * the number of active entries, the sum of their estimated sizes, the 20
     * most recent of them, the counters and the compaction time.
     */
    method GetDiagnostics(now: int) returns (d: CacheDiagnostics)
      requires Valid()
      modifies this
      ensures Valid()
      ensures State() == Sweep(old(State()), now)
      ensures forall k :: k in entryMetadata ==> !IsExpired(entryMetadata[k], now)
      ensures d.totalEntries == |entryMetadata|
      ensures d.estimatedMemoryUsage == SumValues(entryMetadata, SizeOf)
      ensures IsRecentSelection(d.recentEntries, entryMetadata)
      ensures d.hitCount == hitCount && d.missCount == missCount && d.lastCompaction == lastCompaction
    {
      RemoveExpiredMetadata(now);
      var activeEntries := ActiveEntries(entryMetadata, now);
      var usage := EstimatedUsage(activeEntries);
      SumSizesOfEnumeration(activeEntries, entryMetadata);
      TopRecentSelects(activeEntries, entryMetadata);
      d := CacheDiagnostics(|activeEntries|, usage, hitCount, missCount, TopRecent(activeEntries), lastCompaction);
    }
  }

  /** `entries` lists the records of the keys in `seen`, each once. */
  ghost predicate Enumerates(entries: seq<CacheEntryInfo>, metadata: map<string, CacheEntryInfo>, seen: set<string>)
  {
    && |entries| == |seen|
    && (forall i :: 0 <= i < |entries| ==> entries[i].key in seen && entries[i].key in metadata && metadata[entries[i].key] == entries[i])
    && (forall i, j :: 0 <= i < j < |entries| ==> entries[i].key != entries[j].key)
  }

  lemma EnumerateOneMore(entries: seq<CacheEntryInfo>, metadata: map<string, CacheEntryInfo>, seen: set<string>, k: string)
    requires Enumerates(entries, metadata, seen)
    requires k in metadata && metadata[k].key == k && k !in seen
    ensures Enumerates(entries + [metadata[k]], metadata, seen + {k})
  {
  }

  /** The sum of the estimated sizes of a list of records. */
  function SumSizes(entries: seq<CacheEntryInfo>): int
  {
    if entries == [] then 0 else SumSizes(entries[..|entries| - 1]) + entries[|entries| - 1].estimatedSize
  }

  /** Summing the listed records is summing the map they enumerate. */
  lemma {:induction false} SumSizesOfEnumeration(entries: seq<CacheEntryInfo>, metadata: map<string, CacheEntryInfo>)
    requires Enumerates(entries, metadata, metadata.Keys)
    ensures SumSizes(entries) == SumValues(metadata, SizeOf)
    decreases |entries|
  {
    if entries == [] {
      assert metadata == map[];
    } else {
      var n := |entries| - 1;
      var k := entries[n].key;
      var rest := metadata - {k};
      assert Enumerates(entries[..n], rest, rest.Keys) by {
        assert rest.Keys == metadata.Keys - {k};
        forall i | 0 <= i < n ensures entries[..n][i].key != k {
          assert entries[i].key != entries[n].key;
        }
      }
      SumSizesOfEnumeration(entries[..n], rest);
      SumValuesRemove(metadata, SizeOf, k);
    }
  }

  /**
   * The second half of `GetDiagnostics`: enumerate the metadata and keep the
   * entries that are not expired. The sweep has just run at the same `now`,
   * so every entry is live and the expiry filter keeps them all; the
   * requires records this, and the loop lists each entry once.
   */
  method ActiveEntries(metadata: map<string, CacheEntryInfo>, now: int) returns (activeEntries: seq<CacheEntryInfo>)
    requires forall k :: k in metadata ==> metadata[k].key == k && !IsExpired(metadata[k], now)
    ensures Enumerates(activeEntries, metadata, metadata.Keys)
  {
    activeEntries := [];
    var seen: set<string> := {};
    var remaining := metadata.Keys;
    while remaining != {}
      invariant remaining !! seen && remaining + seen == metadata.Keys
      invariant Enumerates(activeEntries, metadata, seen)
      decreases remaining
    {
      var k :| k in remaining;
      var e := metadata[k];
      EnumerateOneMore(activeEntries, metadata, seen, k);
      activeEntries := activeEntries + [e];
      seen := seen + {k};
      remaining := remaining - {k};
    }
  }

  /** `activeEntries.Sum(e => e.EstimatedSize)`. */
  method EstimatedUsage(entries: seq<CacheEntryInfo>) returns (usage: int)
    ensures usage == SumSizes(entries)
  {
    usage := 0;
    for i := 0 to |entries|
      invariant usage == SumSizes(entries[..i])
    {
      assert entries[..i + 1][..i] == entries[..i];
      usage := usage + entries[i].estimatedSize;
    }
    assert entries[..|entries|] == entries;
  }
}
