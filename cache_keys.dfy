/**
 * The cache key policy (`CacheKeyGenerator`, plus the route-information key
 * the GTFS service builds itself). Every key is a pure function of its
 * arguments: no clock or date enters any key.
 */
module CacheKeys {
  import opened Wrappers
  import opened Text
  import opened GtfsStaticDataOptions

  const RealtimePrefix: string := "gtfs:realtime:"
  const RoutePrefix: string := "gtfs:realtime:route"
  const StaticPrefix: string := "gtfs:static:"
  const ShapePrefix: string := "gtfs:shape:route:"
  const RouteInfoPrefix: string := "route-info:"

  function GetRealtimeDataKey(): string
  {
    "gtfs:realtime:feed"
  }

  function GetAllVehiclesCurrentPositionsKey(): string
  {
    "gtfs:realtime:all-vehicles"
  }

  /** The per-route key: the route id follows "route" with no separator. */
  function GetCurrentVehiclesPositionsByRouteKey(routeId: string): (k: string)
    ensures StartsWith(k, RoutePrefix) && k[|RoutePrefix|..] == routeId
  {
    RoutePrefix + routeId
  }

  /** The key of one static file: the enum member's name, not its file name. */
  function GetStaticDataKey(file: GtfsStaticDataFile): (k: string)
    ensures StartsWith(k, StaticPrefix) && k[|StaticPrefix|..] == MemberName(file)
  {
    StaticPrefix + MemberName(file)
  }

  function GetAllRoutesKey(): string
  {
    "gtfs:static:routes"
  }

  function GetRouteShapeKey(routeId: string): (k: string)
    ensures StartsWith(k, ShapePrefix) && k[|ShapePrefix|..] == routeId
  {
    ShapePrefix + routeId
  }

  /** The key under which the GTFS service caches one route's information. */
  function GetRouteInfoKey(routeId: string): (k: string)
    ensures StartsWith(k, RouteInfoPrefix) && k[|RouteInfoPrefix|..] == routeId
  {
    RouteInfoPrefix + routeId
  }

  /** Everything the program caches, by the arguments of the key that names it. */
  datatype CacheKey =
    | RealtimeFeed
    | AllVehiclePositions
    | RouteVehiclePositions(routeId: string)
    | StaticFile(file: GtfsStaticDataFile)
    | AllRoutes
    | RouteShape(routeId: string)
    | RouteInfo(routeId: string)

  function KeyOf(k: CacheKey): string
  {
    match k
    case RealtimeFeed => GetRealtimeDataKey()
    case AllVehiclePositions => GetAllVehiclesCurrentPositionsKey()
    case RouteVehiclePositions(r) => GetCurrentVehiclesPositionsByRouteKey(r)
    case StaticFile(f) => GetStaticDataKey(f)
    case AllRoutes => GetAllRoutesKey()
    case RouteShape(r) => GetRouteShapeKey(r)
    case RouteInfo(r) => GetRouteInfoKey(r)
  }

  /** Reads a key string back into what it names; `None` for a string no key function builds. */
  function ParseKey(s: string): Option<CacheKey>
  {
    if s == GetRealtimeDataKey() then Some(RealtimeFeed)
    else if s == GetAllVehiclesCurrentPositionsKey() then Some(AllVehiclePositions)
    else if StartsWith(s, RoutePrefix) then Some(RouteVehiclePositions(s[|RoutePrefix|..]))
    else if s == GetAllRoutesKey() then Some(AllRoutes)
    else if StartsWith(s, StaticPrefix) && FileOfMemberName(s[|StaticPrefix|..]).Some? then
      Some(StaticFile(FileOfMemberName(s[|StaticPrefix|..]).value))
    else if StartsWith(s, ShapePrefix) then Some(RouteShape(s[|ShapePrefix|..]))
    else if StartsWith(s, RouteInfoPrefix) then Some(RouteInfo(s[|RouteInfoPrefix|..]))
    else None
  }

  /** Every key reads back as exactly what it was built from. */
  lemma ParseKeyOf(k: CacheKey)
    ensures ParseKey(KeyOf(k)) == Some(k)
  {
    match k
    case RealtimeFeed =>
    case AllVehiclePositions =>
      var s := KeyOf(k);
      assert !StartsWith(s, RoutePrefix) by { assert s[14] != RoutePrefix[14]; }
    case RouteVehiclePositions(r) => ParseRouteKey(r);
    case StaticFile(f) => ParseStaticKey(f);
    case AllRoutes =>
      var s := KeyOf(k);
      assert !StartsWith(s, RoutePrefix) by { assert s[5] != RoutePrefix[5]; }
    case RouteShape(r) => ParseShapeKey(r);
    case RouteInfo(r) => ParseRouteInfoKey(r);
  }

  lemma ParseRouteKey(r: string)
    ensures ParseKey(GetCurrentVehiclesPositionsByRouteKey(r)) == Some(RouteVehiclePositions(r))
  {
    var s := GetCurrentVehiclesPositionsByRouteKey(r);
    assert s != GetRealtimeDataKey() by { assert |s| > |GetRealtimeDataKey()|; }
    assert s != GetAllVehiclesCurrentPositionsKey() by { assert s[14] == 'r'; }
  }

  lemma ParseStaticKey(f: GtfsStaticDataFile)
    ensures ParseKey(GetStaticDataKey(f)) == Some(StaticFile(f))
  {
    var s := GetStaticDataKey(f);
    MemberNameRoundTrip(f);
    assert s[5] == 's';
    assert s != GetRealtimeDataKey() && s != GetAllVehiclesCurrentPositionsKey();
    assert !StartsWith(s, RoutePrefix) by { assert RoutePrefix[5] == 'r'; }
    assert s != GetAllRoutesKey() by { assert s[12] == MemberName(f)[0]; }
  }

  lemma ParseShapeKey(r: string)
    ensures ParseKey(GetRouteShapeKey(r)) == Some(RouteShape(r))
  {
    var s := GetRouteShapeKey(r);
    assert s[5] == 's' && s[6] == 'h';
    assert s != GetRealtimeDataKey() && s != GetAllVehiclesCurrentPositionsKey();
    assert !StartsWith(s, RoutePrefix) by { assert RoutePrefix[5] == 'r'; }
    assert s != GetAllRoutesKey() by { assert GetAllRoutesKey()[6] == 't'; }
    assert !StartsWith(s, StaticPrefix) by { assert StaticPrefix[6] == 't'; }
  }

  lemma ParseRouteInfoKey(r: string)
    ensures ParseKey(GetRouteInfoKey(r)) == Some(RouteInfo(r))
  {
    var s := GetRouteInfoKey(r);
    assert s[0] == 'r';
    assert s != GetRealtimeDataKey() && s != GetAllVehiclesCurrentPositionsKey() && s != GetAllRoutesKey();
    assert !StartsWith(s, RoutePrefix) && !StartsWith(s, StaticPrefix) && !StartsWith(s, ShapePrefix) by {
      assert RoutePrefix[0] == StaticPrefix[0] == ShapePrefix[0] == 'g';
    }
  }

  /**
   * Keys never collide: two keys are equal only when they name the same thing,
   * so each key function is injective and the namespaces are disjoint.
   */
  lemma KeyOfInjective(a: CacheKey, b: CacheKey)
    requires KeyOf(a) == KeyOf(b)
    ensures a == b
  {
    ParseKeyOf(a);
    ParseKeyOf(b);
  }
}
