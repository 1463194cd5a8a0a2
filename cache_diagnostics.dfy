/**
 * The diagnostics snapshot of the cache (`CacheDiagnostics`) and the
 * metadata kept for every entry (`CacheEntryInfo`). The clock is an explicit
 * parameter `now`, in whole seconds.
 */
module CacheDiagnostics {
  import opened Wrappers
  import opened Int32

  datatype CacheEntryInfo = CacheEntryInfo(
    key: string,
    setAt: int,
    expiresAt: Option<int>,
    estimatedSize: int,
    dataType: string)

  /** `CacheEntryInfo.IsExpired` read at time `now`: the expiry lies strictly in the past. */
  predicate IsExpired(e: CacheEntryInfo, now: int)
  {
    e.expiresAt.Some? && e.expiresAt.value < now
  }

  /** Expiry is strict and permanent: no expiry means never expired, expiry at `now` is still active, and time only moves an entry towards expiry. */
  lemma ExpiryIsStrictAndPermanent(e: CacheEntryInfo, now: int, later: int)
    requires now <= later
    ensures e.expiresAt.None? ==> !IsExpired(e, now)
    ensures e.expiresAt == Some(now) ==> !IsExpired(e, now) && IsExpired(e, now + 1)
    ensures IsExpired(e, now) ==> IsExpired(e, later)
  {
  }

  datatype CacheDiagnostics = CacheDiagnostics(
    totalEntries: int,
    estimatedMemoryUsage: int,
    hitCount: Int32,
    missCount: Int32,
    recentEntries: seq<CacheEntryInfo>,
    lastCompaction: int)

  /** `TotalRequests`: the sum of the two counters in 32-bit arithmetic. */
  function TotalRequests(d: CacheDiagnostics): (t: Int32)
    ensures MinInt32 <= d.hitCount + d.missCount <= MaxInt32 ==> t == d.hitCount + d.missCount
    ensures (t - (d.hitCount + d.missCount)) % 0x1_0000_0000 == 0
  {
    Wrap(d.hitCount + d.missCount)
  }

  /** `HitRatio`: hits over total requests, or 0 when there are no (positive) requests. */
  function HitRatio(d: CacheDiagnostics): (r: real)
    ensures TotalRequests(d) <= 0 ==> r == 0.0
    ensures TotalRequests(d) > 0 ==> r * (TotalRequests(d) as real) == d.hitCount as real
    ensures 0 <= d.hitCount && 0 <= d.missCount ==> 0.0 <= r <= 1.0
  {
    var total := TotalRequests(d);
    if total > 0 then
      WrappedSumOfNonNegativesWhenCountsAre(d.hitCount, d.missCount);
      var ratio := (d.hitCount as real) / (total as real);
      FractionBounds(d.hitCount as real, total as real);
      ratio
    else 0.0
  }

  /** For non-negative counters, a positive total is the exact sum, so it is at least the hit count. */
  lemma WrappedSumOfNonNegativesWhenCountsAre(hits: Int32, misses: Int32)
    ensures 0 <= hits && 0 <= misses && Wrap(hits + misses) > 0 ==> hits <= Wrap(hits + misses)
  {
    if 0 <= hits && 0 <= misses {
      WrappedSumOfNonNegatives(hits, misses);
    }
  }

  lemma FractionBounds(part: real, whole: real)
    requires whole > 0.0
    ensures 0.0 <= part <= whole ==> 0.0 <= part / whole <= 1.0
  {
    if 0.0 <= part <= whole {
      assert part / whole * whole == part;
    }
  }

  /** Counters whose sum passes `int.MaxValue` wrap to a negative total, and the ratio reads 0. */
  lemma OverflowedCountersReportNoRatio()
    ensures var d := CacheDiagnostics(0, 0, MaxInt32, 1, [], 0);
      TotalRequests(d) == MinInt32 && HitRatio(d) == 0.0
  {
  }
}
