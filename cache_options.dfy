/**
 * The caching options (`CacheOptions`): their default values and the ranges
 * their `[Range]` annotations document. Durations are whole seconds.
 */
module CacheOptions {

  const SecondsPerHour: int := 3600

  datatype CacheOptions = CacheOptions(
    realtimeTtl: int,            // seconds, `RealtimeCacheSeconds`
    staticTtl: int,              // seconds, `StaticCacheHours`
    cacheSizeLimit: int,         // size units, copied to the memory cache's size limit
    compactionPercentage: real,  // fraction of the cache compacted when it overflows
    enableCacheHealthCheck: bool,
    logCacheOperations: bool)

  /** The documented ranges: 1-3600 s, 1-168 h, 10-1000 units, 0.1-0.5. */
  predicate Valid(o: CacheOptions)
  {
    && 1 <= o.realtimeTtl <= 3600
    && 1 * SecondsPerHour <= o.staticTtl <= 168 * SecondsPerHour
    && 10 <= o.cacheSizeLimit <= 1000
    && 0.1 <= o.compactionPercentage <= 0.5
  }

  /** The options a default-constructed `CacheOptions` holds. */
  function Default(): (o: CacheOptions)
    ensures Valid(o)
    ensures o.realtimeTtl < o.staticTtl
    ensures o.enableCacheHealthCheck && !o.logCacheOperations
  {
    CacheOptions(30, 24 * SecondsPerHour, 100, 0.25, true, false)
  }

  /** Within the documented ranges the realtime TTL never exceeds the static TTL (one hour is the shortest static TTL). */
  lemma ValidRealtimeNeverExceedsStatic(o: CacheOptions)
    requires Valid(o)
    ensures o.realtimeTtl <= o.staticTtl
  {
  }
}
