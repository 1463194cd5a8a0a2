/**
 * `CachedGtfsDataService`: the data service decorator that puts the realtime
 * feed bytes and the lines of each static file behind the cache's
 * get-or-populate. The base data service (HTTP and archive reads) is not
 * modelled: what it would return on a call is the `source` parameter, and
 * `baseCalls` counts the calls the decorator lets through to it.
 */
module CachedGtfsDataService {
  import opened Wrappers
  import opened Errors
  import CO = CacheOptions
  import opened CacheKeys
  import opened GtfsStaticDataOptions
  import opened CacheModel
  import opened CacheLaws
  import MemoryCacheService

  /** The factory handed to the cache for the realtime feed: the base service's bytes. */
  function RealtimeFetch(source: Result<seq<bv8>, Error>): () -> Result<Payload, Error>
  {
    () => match source
          case Success(bytes) => Success(ByteArray(bytes))
          case Failure(e) => Failure(e)
  }

  /**
   * The factory handed to the cache for one static file: the base service's
   * lines. That service turns every failure into an empty list, so this
   * factory never fails.
   */
  function StaticFetch(lines: seq<string>): () -> Result<Payload, Error>
  {
    () => Success(StringList(lines))
  }

  /** `GetRealtimeDataAsync` as a transition of the cache: the realtime key with the realtime TTL. */
  function RealtimeRead(s: CacheState, options: CO.CacheOptions, source: Result<seq<bv8>, Error>, now: int)
    : (r: (CacheState, Result<Payload, Error>, bool))
  {
    GetOrSet(s, GetRealtimeDataKey(), ByteArrayKind, RealtimeFetch(source), options.realtimeTtl, now)
  }

  /** `GetStaticFileDataAsync` as a transition of the cache: the file's own key with the static TTL. */
  function StaticRead(s: CacheState, options: CO.CacheOptions, file: GtfsStaticDataFile, source: seq<string>, now: int)
    : (r: (CacheState, Result<Payload, Error>, bool))
  {
    GetOrSet(s, GetStaticDataKey(file), StringListKind, StaticFetch(source), options.staticTtl, now)
  }

  class CachedGtfsDataService {
    const cache: MemoryCacheService.MemoryCacheService
    const options: CO.CacheOptions
    // How many times a read reached the base data service.
    var baseCalls: nat

    constructor(cache: MemoryCacheService.MemoryCacheService, options: CO.CacheOptions)
      ensures this.cache == cache && this.options == options && baseCalls == 0
    {
      this.cache := cache;
      this.options := options;
      baseCalls := 0;
    }

    method GetRealtimeDataAsync(source: Result<seq<bv8>, Error>, now: int) returns (r: Result<Payload, Error>)
      requires cache.Valid()
      modifies this, cache
      ensures cache.Valid()
      ensures var (s, result, fetched) := RealtimeRead(old(cache.State()), options, source, now);
        && cache.State() == s && r == result
        && baseCalls == old(baseCalls) + (if fetched then 1 else 0)
    {
      var fetched;
      r, fetched := cache.GetOrSetAsync(GetRealtimeDataKey(), ByteArrayKind, RealtimeFetch(source), options.realtimeTtl, now);
      if fetched {
        baseCalls := baseCalls + 1;
      }
    }

    method GetStaticFileDataAsync(file: GtfsStaticDataFile, source: seq<string>, now: int) returns (r: Result<Payload, Error>)
      requires cache.Valid()
      modifies this, cache
      ensures cache.Valid()
      ensures var (s, result, fetched) := StaticRead(old(cache.State()), options, file, source, now);
        && cache.State() == s && r == result
        && baseCalls == old(baseCalls) + (if fetched then 1 else 0)
    {
      var fetched;
      r, fetched := cache.GetOrSetAsync(GetStaticDataKey(file), StringListKind, StaticFetch(source), options.staticTtl, now);
      if fetched {
        baseCalls := baseCalls + 1;
      }
    }
  }

  // ---------------------------------------------------------------------------
  // What the decorator promises.
  // ---------------------------------------------------------------------------

  /** A successful realtime read yields bytes: what the cache held under the key, or the base service's bytes. */
  lemma RealtimeReadYieldsBytes(s: CacheState, options: CO.CacheOptions, source: Result<seq<bv8>, Error>, now: int)
    ensures var (_, result, fetched) := RealtimeRead(s, options, source, now);
      && (result.Success? ==> result.value.ByteArray?)
      && (fetched && result.Success? ==> source == Success(result.value.bytes))
      && (fetched <==> !(Live(s, GetRealtimeDataKey(), now) && s.store[GetRealtimeDataKey()].value.ByteArray?))
  {
    var key := GetRealtimeDataKey();
    var (s1, cached) := Get(s, key, ByteArrayKind, now);
    if !cached.Null? {
      assert HasKind(cached, ByteArrayKind);
    }
  }

  /**
   * A repeat realtime read before the realtime TTL has run out is served by
   * the cache: the base service is not called, whatever it would return now.
   */
  lemma RealtimeRepeatIsCached(s: CacheState, options: CO.CacheOptions, bytes: seq<bv8>, later: Result<seq<bv8>, Error>, now: int, t: int)
    requires options.realtimeTtl > 0 && now <= t < now + options.realtimeTtl
    requires !Live(s, GetRealtimeDataKey(), now)
    requires Fits(s, SizeUnits(|bytes|))
    ensures var (s1, r1, f1) := RealtimeRead(s, options, Success(bytes), now);
      && r1 == Success(ByteArray(bytes)) && f1
      && RealtimeRead(s1, options, later, t).1 == Success(ByteArray(bytes))
      && !RealtimeRead(s1, options, later, t).2
  {
    RepeatReadIsCached(s, GetRealtimeDataKey(), ByteArrayKind, ByteArray(bytes), RealtimeFetch(Success(bytes)),
                       RealtimeFetch(later), options.realtimeTtl, now, t);
  }

  /**
   * A failing base read propagates its error and caches nothing: after a read
   * that found no live entry, the key holds no entry.
   */
  lemma RealtimeFailureCachesNothing(s: CacheState, options: CO.CacheOptions, e: Error, now: int)
    requires Inv(s)
    requires !Live(s, GetRealtimeDataKey(), now)
    ensures var (r, result, fetched) := RealtimeRead(s, options, Failure(e), now);
      && result == Failure(e) && fetched
      && GetRealtimeDataKey() !in r.store
      && r.metadata.Keys <= s.metadata.Keys
  {
    var key := GetRealtimeDataKey();
    GetOrSetMiss(s, key, ByteArrayKind, RealtimeFetch(Failure(e)), options.realtimeTtl, now);
    if key in s.store {
      RemoveEntryInv(s, key, Expired, now);
    }
  }

  /**
   * An empty list of lines is a non-null value, so it is cached like any
   * other: a repeat read before the static TTL has run out does not call the
   * base service. Since that service answers a failed download with an empty
   * list, a failure is served from the cache for the whole static TTL.
   */
  lemma EmptyStaticFileIsCached(s: CacheState, options: CO.CacheOptions, file: GtfsStaticDataFile, later: seq<string>, now: int, t: int)
    requires options.staticTtl > 0 && now <= t < now + options.staticTtl
    requires !Live(s, GetStaticDataKey(file), now)
    requires Fits(s, 1)
    ensures var (s1, r1, f1) := StaticRead(s, options, file, [], now);
      && r1 == Success(StringList([])) && f1
      && StaticRead(s1, options, file, later, t).1 == Success(StringList([]))
      && !StaticRead(s1, options, file, later, t).2
  {
    assert SizeUnits(EstimateObjectSize(StringList([]))) == 1;
    RepeatReadIsCached(s, GetStaticDataKey(file), StringListKind, StringList([]), StaticFetch([]),
                       StaticFetch(later), options.staticTtl, now, t);
  }

  /**
   * Distinct files never share an entry: reading one file leaves the entry
   * and the metadata under every other file's key as they were.
   */
  lemma StaticFilesAreCachedApart(s: CacheState, options: CO.CacheOptions, file: GtfsStaticDataFile, source: seq<string>, now: int, other: GtfsStaticDataFile)
    requires other != file
    ensures GetStaticDataKey(other) != GetStaticDataKey(file)
    ensures SameAt(s, StaticRead(s, options, file, source, now).0, GetStaticDataKey(other))
  {
    if GetStaticDataKey(other) == GetStaticDataKey(file) {
      KeyOfInjective(StaticFile(other), StaticFile(file));
    }
    GetOrSetTouchesOnlyItsKey(s, GetStaticDataKey(file), StringListKind, StaticFetch(source), options.staticTtl, now, GetStaticDataKey(other));
  }
}
