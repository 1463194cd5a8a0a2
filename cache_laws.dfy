/**
 * What the cache promises its callers, stated over the operations of
 * `CacheModel` and proved for all states that satisfy the invariant.
 */
module CacheLaws {
  import opened Wrappers
  import opened Int32
  import opened Errors
  import opened CacheDiagnostics
  import opened CacheModel

  // ---------------------------------------------------------------------------
  // Reads.
  // ---------------------------------------------------------------------------

  /**
   * A read of a live entry counts one hit, changes nothing else (in
   * particular not the expiry: there is no sliding renewal) and returns the
   * value if it has the requested type. Any other read counts one miss,
   * returns null and drops an expired entry along with its metadata.
   */
  lemma GetCountsHitOrMiss(s: CacheState, key: string, kind: Kind, now: int)
    ensures var (r, v) := Get(s, key, kind, now);
      if Live(s, key, now) then
        && r == s.(hits := Increment(s.hits))
        && v == Cast(s.store[key].value, kind)
        && (HasKind(s.store[key].value, kind) ==> v == s.store[key].value)
      else
        && v.Null?
        && r.hits == s.hits && r.misses == Increment(s.misses)
        && r.store == s.store - {key}
        && r.metadata == (if key in s.store then s.metadata - {key} else s.metadata)
  {
    if !Live(s, key, now) && key !in s.store {
      assert s.store - {key} == s.store;
    }
  }

  /** `ContainsKey` answers whether the entry is live and never touches the counters. */
  lemma ContainsKeyLeavesCounters(s: CacheState, key: string, now: int)
    ensures var (r, found) := Contains(s, key, now);
      && found == Live(s, key, now)
      && r.hits == s.hits && r.misses == s.misses
      && (found ==> r == s)
      && r.store == s.store - (if found then {} else {key})
  {
    if key !in s.store {
      assert s.store - {key} == s.store;
    }
    assert s.store - {} == s.store;
  }

  // ---------------------------------------------------------------------------
  // Writes.
  // ---------------------------------------------------------------------------

  /**
   * A set with a positive expiration leaves exactly one metadata record for
   * the key (set now, expiring at `now + ttl`, with the value's estimated size)
   * and every other key's metadata as it was, whether or not the value fits;
   * a non-positive expiration fails and changes nothing.
   */
  lemma SetRecordsMetadata(s: CacheState, key: string, value: Payload, kind: Kind, ttl: int, now: int)
    ensures Set(s, key, value, kind, ttl, now).Failure? <==> ttl <= 0
    ensures ttl <= 0 ==> Set(s, key, value, kind, ttl, now).error == ExpirationOutOfRange(ttl)
    ensures ttl > 0 ==>
      var r := Set(s, key, value, kind, ttl, now).value;
      && r.metadata == s.metadata[key := CacheEntryInfo(key, now, Some(now + ttl), EstimateObjectSize(value), TypeName(kind))]
      && r.hits == s.hits && r.misses == s.misses
      && r.store - {key} == s.store - {key}
  {
    if ttl > 0 {
      var entry := StoreEntry(value, now + ttl, SizeUnits(EstimateObjectSize(value)));
      var stored := StoreValue(s, key, entry, now);
      var info := EntryInfo(key, value, kind, ttl, now);
      assert stored.metadata == s.metadata || stored.metadata == s.metadata - {key};
      assert (s.metadata - {key})[key := info] == s.metadata[key := info];
      assert s.store[key := entry] - {key} == s.store - {key};
      assert s.store - {key} - {key} == s.store - {key};
    }
  }

  /** Every operation keeps the running size equal to the units held and within the size limit. */
  lemma SetKeepsInvariant(s: CacheState, key: string, value: Payload, kind: Kind, ttl: int, now: int)
    requires Inv(s)
    ensures Set(s, key, value, kind, ttl, now).Success? ==> Inv(Set(s, key, value, kind, ttl, now).value)
  {
    if ttl > 0 {
      var entry := StoreEntry(value, now + ttl, SizeUnits(EstimateObjectSize(value)));
      StoreValueInv(s, key, entry, now);
    }
  }

  /**
   * After a set that fits, reads return the value until the absolute expiry
   * `now + ttl` and nothing from then on.
   */
  lemma SetThenGet(s: CacheState, key: string, value: Payload, kind: Kind, ttl: int, now: int, t: int)
    requires ttl > 0 && HasKind(value, kind) && now <= t
    requires Fits(s, SizeUnits(EstimateObjectSize(value)))
    ensures Set(s, key, value, kind, ttl, now).Success?
    ensures Live(Set(s, key, value, kind, ttl, now).value, key, t) <==> t < now + ttl
    ensures Get(Set(s, key, value, kind, ttl, now).value, key, kind, t).1 == if t < now + ttl then value else Null
  {
  }

  /**
   * A value too large for the remaining capacity is not stored, the prior
   * entry under the key is dropped, the compaction time is stamped, and the
   * metadata index still lists the key: the index can name an entry the cache
   * does not hold.
   */
  lemma SetOverCapacity(s: CacheState, key: string, value: Payload, kind: Kind, ttl: int, now: int)
    requires ttl > 0 && !Fits(s, SizeUnits(EstimateObjectSize(value)))
    ensures var r := Set(s, key, value, kind, ttl, now).value;
      && r.store == s.store - {key}
      && key in r.metadata
      && r.lastCompaction == now
      && r.storeSize == s.storeSize - (if key in s.store then s.store[key].units else 0)
  {
    if key !in s.store {
      assert s.store - {key} == s.store;
    }
  }

  /** The capacity is never exceeded: the units held stay within the size limit through any set. */
  lemma SetNeverExceedsCapacity(s: CacheState, key: string, value: Payload, kind: Kind, ttl: int, now: int)
    requires Inv(s) && ttl > 0
    ensures var r := Set(s, key, value, kind, ttl, now).value;
      SumValues(r.store, UnitsOf) <= r.sizeLimit && r.sizeLimit == s.sizeLimit
  {
    SetKeepsInvariant(s, key, value, kind, ttl, now);
  }

  /**
   * A remove drops the key's entry and its metadata; when the memory cache
   * holds no entry the callback does not run and any metadata for the key
   * stays.
   */
  lemma RemoveForgetsKey(s: CacheState, key: string, now: int)
    requires Inv(s)
    ensures Inv(Remove(s, key, now))
    ensures Remove(s, key, now).store == s.store - {key}
    ensures key in s.store ==> key !in Remove(s, key, now).metadata
    ensures key !in s.store ==> Remove(s, key, now) == s
  {
    if key in s.store {
      RemoveEntryInv(s, key, Removed, now);
    } else {
      assert s.store - {key} == s.store;
    }
  }

  /** Clearing the metadata leaves every cached value readable. */
  lemma ClearKeepsValues(s: CacheState, key: string, kind: Kind, now: int)
    ensures Clear(s).metadata == map[]
    ensures Get(Clear(s), key, kind, now).1 == Get(s, key, kind, now).1
    ensures Contains(Clear(s), key, now).1 == Contains(s, key, now).1
    ensures Inv(s) ==> Inv(Clear(s))
  {
  }

  /** Only a capacity eviction moves the compaction time; every eviction forgets the key's metadata. */
  lemma EvictionStampsOnlyCapacity(s: CacheState, key: string, reason: EvictionReason, now: int)
    requires Inv(s) && key in s.store
    ensures var r := RemoveEntry(s, key, reason, now);
      && Inv(r)
      && key !in r.store && key !in r.metadata
      && (r.lastCompaction != s.lastCompaction ==> reason == Capacity)
      && (reason == Capacity ==> r.lastCompaction == now)
  {
    RemoveEntryInv(s, key, reason, now);
  }

  // ---------------------------------------------------------------------------
  // Get-or-populate.
  // ---------------------------------------------------------------------------

  /** A live non-null value of the requested type is returned without calling the factory. */
  lemma GetOrSetHit(s: CacheState, key: string, kind: Kind, fetch: () -> Result<Payload, Error>, ttl: int, now: int)
    requires Live(s, key, now) && !s.store[key].value.Null? && HasKind(s.store[key].value, kind)
    ensures GetOrSet(s, key, kind, fetch, ttl, now) == (s.(hits := Increment(s.hits)), Success(s.store[key].value), false)
  {
  }

  /**
   * When the read yields null the factory runs exactly once; its failure, or
   * the set's, propagates and nothing is stored beyond what the read did.
   */
  lemma GetOrSetMiss(s: CacheState, key: string, kind: Kind, fetch: () -> Result<Payload, Error>, ttl: int, now: int)
    requires Get(s, key, kind, now).1.Null?
    ensures var (r, result, fetched) := GetOrSet(s, key, kind, fetch, ttl, now);
      && fetched
      && (fetch().Failure? ==> result == fetch() && r == Get(s, key, kind, now).0)
      && (fetch().Success? && ttl <= 0 ==> result == Failure(ExpirationOutOfRange(ttl)) && r == Get(s, key, kind, now).0)
      && (fetch().Success? && ttl > 0 ==> result == fetch() && r == Set(Get(s, key, kind, now).0, key, fetch().value, kind, ttl, now).value)
  {
  }

  /**
   * Get-or-populate fetches at most once per expiry period: after a miss
   * that stores a non-null value, a second call before the expiry returns that
   * value without calling the factory.
   */
  lemma GetOrSetTwice(s: CacheState, key: string, kind: Kind, fetch: () -> Result<Payload, Error>, ttl: int, now: int, t: int)
    requires fetch().Success? && !fetch().value.Null? && HasKind(fetch().value, kind)
    requires ttl > 0 && now <= t < now + ttl
    requires Get(s, key, kind, now).1.Null?
    requires Fits(Get(s, key, kind, now).0, SizeUnits(EstimateObjectSize(fetch().value)))
    ensures var (s1, r1, f1) := GetOrSet(s, key, kind, fetch, ttl, now);
      && r1 == fetch() && f1
      && GetOrSet(s1, key, kind, fetch, ttl, t).1 == fetch()
      && !GetOrSet(s1, key, kind, fetch, ttl, t).2
  {
    var s0 := Get(s, key, kind, now).0;
    SetThenGet(s0, key, fetch().value, kind, ttl, now, t);
  }

  /**
   * Read-through from an empty slot: the first call fetches and stores a
   * non-null value; a second call before the expiry returns that value
   * without calling its own factory, whatever that factory would return.
   */
  lemma RepeatReadIsCached(s: CacheState, key: string, kind: Kind, value: Payload, fetch: () -> Result<Payload, Error>,
                           later: () -> Result<Payload, Error>, ttl: int, now: int, t: int)
    requires fetch() == Success(value) && !value.Null? && HasKind(value, kind)
    requires ttl > 0 && now <= t < now + ttl
    requires !Live(s, key, now)
    requires Fits(s, SizeUnits(EstimateObjectSize(value)))
    ensures var (s1, r1, f1) := GetOrSet(s, key, kind, fetch, ttl, now);
      && r1 == Success(value) && f1
      && GetOrSet(s1, key, kind, later, ttl, t).1 == Success(value)
      && !GetOrSet(s1, key, kind, later, ttl, t).2
  {
    var s0 := Get(s, key, kind, now).0;
    assert s0.storeSize <= s.storeSize && s0.sizeLimit == s.sizeLimit;
    GetOrSetMiss(s, key, kind, fetch, ttl, now);
    var s1 := GetOrSet(s, key, kind, fetch, ttl, now).0;
    SetThenGet(s0, key, value, kind, ttl, now, t);
    GetOrSetHit(s1, key, kind, later, ttl, t);
  }

  /**
   * Get-or-populate under `key` leaves the entry and the metadata of every
   * other key as they were: a capacity rejection or an expiry only ever
   * drops the key being read or written.
   */
  lemma GetOrSetTouchesOnlyItsKey(s: CacheState, key: string, kind: Kind, fetch: () -> Result<Payload, Error>, ttl: int, now: int, other: string)
    requires other != key
    ensures SameAt(s, GetOrSet(s, key, kind, fetch, ttl, now).0, other)
  {
    var s1 := Get(s, key, kind, now).0;
    assert SameAt(s, s1, other);
    var r := GetOrSet(s, key, kind, fetch, ttl, now).0;
    if r != s1 {
      var value := fetch().value;
      var entry := StoreEntry(value, now + ttl, SizeUnits(EstimateObjectSize(value)));
      assert SameAt(s1, StoreValue(s1, key, entry, now), other);
    }
  }

  /** `a` and `b` agree on the entry and the metadata of `k`. */
  predicate SameAt(a: CacheState, b: CacheState, k: string)
  {
    && (k in a.store <==> k in b.store)
    && (k in a.store ==> a.store[k] == b.store[k])
    && (k in a.metadata <==> k in b.metadata)
    && (k in a.metadata ==> a.metadata[k] == b.metadata[k])
  }

  /** A cached null is no hit for get-or-populate: the factory runs on every call. */
  lemma CachedNullRefetches(s: CacheState, key: string, kind: Kind, fetch: () -> Result<Payload, Error>, ttl: int, now: int)
    requires Live(s, key, now) && s.store[key].value.Null?
    ensures GetOrSet(s, key, kind, fetch, ttl, now).2
    ensures GetOrSet(s, key, kind, fetch, ttl, now).0.hits == Increment(s.hits)
  {
  }

  /**
   * The nullable variant caches a null result: after a miss whose factory
   * returns null, a second call before the expiry returns null without
   * calling the factory.
   */
  lemma NullableCachesNull(s: CacheState, key: string, kind: Kind, fetch: () -> Result<Payload, Error>, ttl: int, now: int, t: int)
    requires fetch() == Success(Null)
    requires ttl > 0 && now <= t < now + ttl
    requires Get(s, key, WrapperKind(kind), now).1.Null?
    requires Fits(Get(s, key, WrapperKind(kind), now).0, 1)
    ensures var (s1, r1, f1) := GetOrSetNullable(s, key, kind, fetch, ttl, now);
      && r1 == Success(Null) && f1
      && GetOrSetNullable(s1, key, kind, fetch, ttl, t).1 == Success(Null)
      && !GetOrSetNullable(s1, key, kind, fetch, ttl, t).2
  {
    var s0 := Get(s, key, WrapperKind(kind), now).0;
    assert SizeUnits(EstimateObjectSize(NullableWrapper(kind, Null))) == 1;
    SetThenGet(s0, key, NullableWrapper(kind, Null), WrapperKind(kind), ttl, now, t);
  }

  /** The nullable variant returns whatever non-null value it cached, again without the factory. */
  lemma NullableReturnsCachedValue(s: CacheState, key: string, kind: Kind, fetch: () -> Result<Payload, Error>, ttl: int, now: int, inner: Payload)
    requires Live(s, key, now) && s.store[key].value == NullableWrapper(kind, inner)
    ensures GetOrSetNullable(s, key, kind, fetch, ttl, now) == (s.(hits := Increment(s.hits)), Success(inner), false)
  {
  }

  // ---------------------------------------------------------------------------
  // Diagnostics.
  // ---------------------------------------------------------------------------

  /** The sweep removes exactly the expired metadata and touches nothing else. */
  lemma SweepRemovesExactlyExpired(s: CacheState, now: int)
    requires Inv(s)
    ensures var r := Sweep(s, now);
      && Inv(r)
      && (forall k :: k in r.metadata <==> k in s.metadata && !IsExpired(s.metadata[k], now))
      && (forall k :: k in r.metadata ==> r.metadata[k] == s.metadata[k])
      && r.store == s.store && r.hits == s.hits && r.misses == s.misses && r.lastCompaction == s.lastCompaction
  {
  }

  /**
   * The memory cache treats an entry as gone at its expiry instant while the
   * metadata still counts it as active: at `now + ttl` a read misses but the
   * sweep keeps the record.
   */
  lemma ExpiryBoundaryMismatch(s: CacheState, key: string, value: Payload, kind: Kind, ttl: int, now: int)
    requires ttl > 0 && HasKind(value, kind)
    requires Fits(s, SizeUnits(EstimateObjectSize(value)))
    ensures var s1 := Set(s, key, value, kind, ttl, now).value;
      && !Live(s1, key, now + ttl)
      && key in Sweep(s1, now + ttl).metadata
  {
    SetRecordsMetadata(s, key, value, kind, ttl, now);
  }

  // ---------------------------------------------------------------------------
  // The invariant through every operation.
  // ---------------------------------------------------------------------------

  lemma ReadsKeepInvariant(s: CacheState, key: string, kind: Kind, now: int)
    requires Inv(s)
    ensures Inv(Get(s, key, kind, now).0)
    ensures Inv(Contains(s, key, now).0)
  {
    if key in s.store && now >= s.store[key].expiresAt {
      RemoveEntryInv(s, key, Expired, now);
    }
  }

  lemma GetOrSetKeepsInvariant(s: CacheState, key: string, kind: Kind, fetch: () -> Result<Payload, Error>, ttl: int, now: int)
    requires Inv(s)
    ensures Inv(GetOrSet(s, key, kind, fetch, ttl, now).0)
    ensures Inv(GetOrSetNullable(s, key, kind, fetch, ttl, now).0)
  {
    ReadsKeepInvariant(s, key, kind, now);
    ReadsKeepInvariant(s, key, WrapperKind(kind), now);
    if fetch().Success? {
      SetKeepsInvariant(Get(s, key, kind, now).0, key, fetch().value, kind, ttl, now);
      SetKeepsInvariant(Get(s, key, WrapperKind(kind), now).0, key, NullableWrapper(kind, fetch().value), WrapperKind(kind), ttl, now);
    }
  }
}
