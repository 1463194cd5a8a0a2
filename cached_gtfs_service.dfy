/**
 * `CachedGtfsService`: the service decorator that puts the grouped vehicle
 * positions, the per-route positions and the route shapes behind the cache's
 * get-or-populate, all three for the realtime TTL, and passes static file
 * reads straight through to the base service (those are cached one level
 * down, by the data service). What the base service would compute on a call
 * is the model's `GtfsService` over the feed or file the call would read;
 * `baseCalls` counts the calls the decorator lets through.
 */
module CachedGtfsService {
  import opened Wrappers
  import opened Errors
  import CO = CacheOptions
  import opened CacheKeys
  import opened GtfsModels
  import opened GtfsStaticDataOptions
  import opened CacheModel
  import opened CacheLaws
  import GS = GtfsService
  import MemoryCacheService

  /** The factory for all vehicles' positions: the base service's grouping of the feed. */
  function AllPositionsFetch(feed: Result<seq<FeedEntity>, Error>): () -> Result<Payload, Error>
  {
    () => match GS.PositionsOf(feed)
          case Success(d) => Success(Positions(d))
          case Failure(e) => Failure(e)
  }

  /** The factory for one route's positions. */
  function RoutePositionsFetch(feed: Result<seq<FeedEntity>, Error>, routeId: string): () -> Result<Payload, Error>
  {
    () => match GS.RoutePositions(feed, routeId)
          case Success(d) => Success(Positions(d))
          case Failure(e) => Failure(e)
  }

  /** The factory for one route's shape: the base service's points from shapes.txt. */
  function RouteShapeFetch(lines: seq<string>, routeId: string): () -> Result<Payload, Error>
  {
    () => match GS.GetRouteShape(lines, routeId)
          case Success(points) => Success(ShapeList(points))
          case Failure(e) => Failure(e)
  }

  /** `GetAllVechiclesCurrentPositions` as a transition of the cache. */
  function AllPositionsRead(s: CacheState, options: CO.CacheOptions, feed: Result<seq<FeedEntity>, Error>, now: int)
    : (r: (CacheState, Result<Payload, Error>, bool))
  {
    GetOrSet(s, GetAllVehiclesCurrentPositionsKey(), PositionsKind, AllPositionsFetch(feed), options.realtimeTtl, now)
  }

  /** `GetCurrentVehiclesPositionsByRoute` as a transition of the cache: one entry per route id. */
  function RoutePositionsRead(s: CacheState, options: CO.CacheOptions, routeId: string, feed: Result<seq<FeedEntity>, Error>, now: int)
    : (r: (CacheState, Result<Payload, Error>, bool))
  {
    GetOrSet(s, GetCurrentVehiclesPositionsByRouteKey(routeId), PositionsKind, RoutePositionsFetch(feed, routeId), options.realtimeTtl, now)
  }

  /** `GetRouteShape` as a transition of the cache: static data, yet kept for the realtime TTL. */
  function RouteShapeRead(s: CacheState, options: CO.CacheOptions, routeId: string, lines: seq<string>, now: int)
    : (r: (CacheState, Result<Payload, Error>, bool))
  {
    GetOrSet(s, GetRouteShapeKey(routeId), ShapeListKind, RouteShapeFetch(lines, routeId), options.realtimeTtl, now)
  }

  class CachedGtfsService {
    const cache: MemoryCacheService.MemoryCacheService
    const options: CO.CacheOptions
    // How many times a read reached the base service.
    var baseCalls: nat

    constructor(cache: MemoryCacheService.MemoryCacheService, options: CO.CacheOptions)
      ensures this.cache == cache && this.options == options && baseCalls == 0
    {
      this.cache := cache;
      this.options := options;
      baseCalls := 0;
    }

    method GetAllVechiclesCurrentPositions(feed: Result<seq<FeedEntity>, Error>, now: int) returns (r: Result<Payload, Error>)
      requires cache.Valid()
      modifies this, cache
      ensures cache.Valid()
      ensures var (s, result, fetched) := AllPositionsRead(old(cache.State()), options, feed, now);
        && cache.State() == s && r == result
        && baseCalls == old(baseCalls) + (if fetched then 1 else 0)
    {
      var fetched;
      r, fetched := cache.GetOrSetAsync(GetAllVehiclesCurrentPositionsKey(), PositionsKind, AllPositionsFetch(feed), options.realtimeTtl, now);
      if fetched {
        baseCalls := baseCalls + 1;
      }
    }

    method GetCurrentVehiclesPositionsByRoute(routeId: string, feed: Result<seq<FeedEntity>, Error>, now: int) returns (r: Result<Payload, Error>)
      requires cache.Valid()
      modifies this, cache
      ensures cache.Valid()
      ensures var (s, result, fetched) := RoutePositionsRead(old(cache.State()), options, routeId, feed, now);
        && cache.State() == s && r == result
        && baseCalls == old(baseCalls) + (if fetched then 1 else 0)
    {
      var cacheKey := GetCurrentVehiclesPositionsByRouteKey(routeId);
      var fetched;
      r, fetched := cache.GetOrSetAsync(cacheKey, PositionsKind, RoutePositionsFetch(feed, routeId), options.realtimeTtl, now);
      if fetched {
        baseCalls := baseCalls + 1;
      }
    }

    /** Static file reads bypass this cache: the base service answers every call. */
    method GetAllStaticFileData(file: GtfsStaticDataFile, lines: seq<string>) returns (r: Result<seq<string>, Error>)
      modifies this
      ensures r == GS.GetAllStaticFileData(lines, file)
      ensures baseCalls == old(baseCalls) + 1
    {
      baseCalls := baseCalls + 1;
      r := GS.GetAllStaticFileData(lines, file);
    }

    method GetRouteShape(routeId: string, lines: seq<string>, now: int) returns (r: Result<Payload, Error>)
      requires cache.Valid()
      modifies this, cache
      ensures cache.Valid()
      ensures var (s, result, fetched) := RouteShapeRead(old(cache.State()), options, routeId, lines, now);
        && cache.State() == s && r == result
        && baseCalls == old(baseCalls) + (if fetched then 1 else 0)
    {
      var cacheKey := GetRouteShapeKey(routeId);
      var fetched;
      r, fetched := cache.GetOrSetAsync(cacheKey, ShapeListKind, RouteShapeFetch(lines, routeId), options.realtimeTtl, now);
      if fetched {
        baseCalls := baseCalls + 1;
      }
    }
  }

  // ---------------------------------------------------------------------------
  // What the decorator promises.
  // ---------------------------------------------------------------------------

  /**
   * A successful positions read yields positions: on a fetch, exactly the
   * base service's grouping of the feed; the base service is reached exactly
   * when the cache holds no live positions under the key.
   */
  lemma AllPositionsReadYieldsPositions(s: CacheState, options: CO.CacheOptions, feed: Result<seq<FeedEntity>, Error>, now: int)
    ensures var (_, result, fetched) := AllPositionsRead(s, options, feed, now);
      && (result.Success? ==> result.value.Positions?)
      && (fetched && result.Success? ==> GS.PositionsOf(feed) == Success(result.value.positions))
      && (fetched && GS.PositionsOf(feed).Failure? ==> result == Failure(GS.PositionsOf(feed).error))
      && (fetched <==> !(Live(s, GetAllVehiclesCurrentPositionsKey(), now) && s.store[GetAllVehiclesCurrentPositionsKey()].value.Positions?))
  {
    var key := GetAllVehiclesCurrentPositionsKey();
    var (s1, cached) := Get(s, key, PositionsKind, now);
    if !cached.Null? {
      assert HasKind(cached, PositionsKind);
    }
  }

  /**
   * A repeat positions read within the realtime TTL is served by the cache,
   * whatever the feed holds by then.
   */
  lemma AllPositionsRepeatIsCached(s: CacheState, options: CO.CacheOptions, feed: Result<seq<FeedEntity>, Error>, later: Result<seq<FeedEntity>, Error>, now: int, t: int)
    requires GS.PositionsOf(feed).Success?
    requires options.realtimeTtl > 0 && now <= t < now + options.realtimeTtl
    requires !Live(s, GetAllVehiclesCurrentPositionsKey(), now)
    requires Fits(s, 1)
    ensures var (s1, r1, f1) := AllPositionsRead(s, options, feed, now);
      && r1 == Success(Positions(GS.PositionsOf(feed).value)) && f1
      && AllPositionsRead(s1, options, later, t).1 == r1
      && !AllPositionsRead(s1, options, later, t).2
  {
    var value := Positions(GS.PositionsOf(feed).value);
    assert SizeUnits(EstimateObjectSize(value)) == 1;
    RepeatReadIsCached(s, GetAllVehiclesCurrentPositionsKey(), PositionsKind, value, AllPositionsFetch(feed),
                       AllPositionsFetch(later), options.realtimeTtl, now, t);
  }

  /** A failing positions read propagates the base service's error and caches nothing under the key. */
  lemma AllPositionsFailureCachesNothing(s: CacheState, options: CO.CacheOptions, feed: Result<seq<FeedEntity>, Error>, now: int)
    requires Inv(s)
    requires GS.PositionsOf(feed).Failure?
    requires !Live(s, GetAllVehiclesCurrentPositionsKey(), now)
    ensures var (r, result, fetched) := AllPositionsRead(s, options, feed, now);
      && result == Failure(GS.PositionsOf(feed).error) && fetched
      && GetAllVehiclesCurrentPositionsKey() !in r.store
  {
    var key := GetAllVehiclesCurrentPositionsKey();
    GetOrSetMiss(s, key, PositionsKind, AllPositionsFetch(feed), options.realtimeTtl, now);
    if key in s.store {
      RemoveEntryInv(s, key, Expired, now);
    }
  }

  /**
   * Per-route reads are cached apart: reading one route leaves the entries
   * of every other route, and of the all-vehicles key, as they were.
   */
  lemma RoutePositionsAreCachedApart(s: CacheState, options: CO.CacheOptions, routeId: string, feed: Result<seq<FeedEntity>, Error>, now: int, other: string)
    requires other != routeId
    ensures SameAt(s, RoutePositionsRead(s, options, routeId, feed, now).0, GetCurrentVehiclesPositionsByRouteKey(other))
    ensures SameAt(s, RoutePositionsRead(s, options, routeId, feed, now).0, GetAllVehiclesCurrentPositionsKey())
  {
    var key := GetCurrentVehiclesPositionsByRouteKey(routeId);
    if GetCurrentVehiclesPositionsByRouteKey(other) == key {
      KeyOfInjective(RouteVehiclePositions(other), RouteVehiclePositions(routeId));
    }
    if GetAllVehiclesCurrentPositionsKey() == key {
      KeyOfInjective(AllVehiclePositions, RouteVehiclePositions(routeId));
    }
    var fetch := RoutePositionsFetch(feed, routeId);
    GetOrSetTouchesOnlyItsKey(s, key, PositionsKind, fetch, options.realtimeTtl, now, GetCurrentVehiclesPositionsByRouteKey(other));
    GetOrSetTouchesOnlyItsKey(s, key, PositionsKind, fetch, options.realtimeTtl, now, GetAllVehiclesCurrentPositionsKey());
  }

  /**
   * A fetched per-route read holds the base service's single-key dictionary
   * for that route: under the exact route id, the positions of the groups
   * whose key equals it ordinally.
   */
  lemma RoutePositionsReadIsSingleRoute(s: CacheState, options: CO.CacheOptions, routeId: string, feed: Result<seq<FeedEntity>, Error>, now: int)
    requires GS.PositionsOf(feed).Success?
    ensures var (_, result, fetched) := RoutePositionsRead(s, options, routeId, feed, now);
      fetched && result.Success? ==>
        && result.value == Positions(GS.PositionsByRoute(GS.PositionsOf(feed).value, routeId))
        && Keys(result.value.positions) == [routeId]
  {
  }

  /**
   * Route shapes come from static data yet are kept only for the realtime
   * TTL: a stored shape is live exactly until `now + realtimeTtl`.
   */
  lemma RouteShapeLivesForRealtimeTtl(s: CacheState, options: CO.CacheOptions, routeId: string, lines: seq<string>, now: int, t: int)
    requires GS.GetRouteShape(lines, routeId).Success?
    requires options.realtimeTtl > 0 && now <= t
    requires !Live(s, GetRouteShapeKey(routeId), now)
    requires Fits(Get(s, GetRouteShapeKey(routeId), ShapeListKind, now).0, 1)
    ensures Live(RouteShapeRead(s, options, routeId, lines, now).0, GetRouteShapeKey(routeId), t) <==> t < now + options.realtimeTtl
  {
    var key := GetRouteShapeKey(routeId);
    var fetch := RouteShapeFetch(lines, routeId);
    var value := ShapeList(GS.GetRouteShape(lines, routeId).value);
    assert fetch() == Success(value);
    assert SizeUnits(EstimateObjectSize(value)) == 1;
    GetOrSetMiss(s, key, ShapeListKind, fetch, options.realtimeTtl, now);
    SetThenGet(Get(s, key, ShapeListKind, now).0, key, value, ShapeListKind, options.realtimeTtl, now, t);
  }
}
