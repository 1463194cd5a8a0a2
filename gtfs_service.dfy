/**
 * `GtfsService`: route records and shape points read from the static files
 * by column position, the route-to-positions dictionary built from the
 * realtime feed, and the enhanced views that join positions with route
 * information cached under `route-info:{routeId}`.
 *
 * A static file arrives as its lines with the header already skipped (the
 * data service never fails: it answers every failure with an empty list).
 * The realtime feed arrives decoded, as its entities, or as the error its
 * download or decoding raised. Coordinate parsing (`double.TryParse`) is the
 * parameter `parse`, and `now` is the clock.
 */
module GtfsService {
  import opened Wrappers
  import opened Int32
  import opened Text
  import opened Errors
  import opened GtfsModels
  import opened GtfsStaticDataOptions
  import opened CacheKeys
  import opened CacheModel
  import opened CacheLaws
  import CO = CacheOptions
  import MemoryCacheService

  predicate IsQuote(c: char)
  {
    c == '"'
  }

  // ---------------------------------------------------------------------------
  // routes.txt
  // ---------------------------------------------------------------------------

  /**
   * One row of routes.txt, read by column position after splitting on every
   * comma (quotes do not protect a comma): the id is field 0, the names are
   * fields 2 and 3 with surrounding quotes trimmed, the type is field 5.
   */
  function RouteOfLine(line: string): RouteRecord
  {
    var parts := Split(line, ',');
    RouteRecord(
      if |parts| > 0 then parts[0] else "",
      if |parts| > 2 then Trim(parts[2], IsQuote) else "",
      if |parts| > 3 then Trim(parts[3], IsQuote) else "",
      if |parts| > 5 then parts[5] else "")
  }

  /** `GetAllRoutes`: one record per line, in order; a file without lines is invalid data. */
  function GetAllRoutes(lines: seq<string>): (r: Result<seq<RouteRecord>, Error>)
    ensures r.Failure? <==> |lines| == 0
    ensures r.Failure? ==> r.error == InvalidData("No route data available.")
    ensures r.Success? ==> |r.value| == |lines| && forall i :: 0 <= i < |lines| ==> r.value[i] == RouteOfLine(lines[i])
  {
    if |lines| > 0 then Success(seq(|lines|, i requires 0 <= i < |lines| => RouteOfLine(lines[i])))
    else Failure(InvalidData("No route data available."))
  }

  /** Trimming quotes off a quoted name that neither starts nor ends with a quote gives the name. */
  lemma TrimQuoted(name: string)
    requires name == [] || (!IsQuote(name[0]) && !IsQuote(name[|name| - 1]))
    ensures Trim(Quoted(name), IsQuote) == name
  {
    var q := Quoted(name);
    var tail := name + "\"";
    assert q == ['"'] + tail;
    TrimStartDropsOne(tail, '"', IsQuote);
    if name == [] {
      assert tail == ['"'] + [];
      TrimStartDropsOne([], '"', IsQuote);
    } else {
      assert tail[0] == name[0];
      assert tail == name + ['"'];
      TrimEndDropsOne(name, '"', IsQuote);
    }
  }

  /** A leading character that trimming drops is trimmed away. */
  lemma TrimStartDropsOne(s: string, c: char, drop: char -> bool)
    requires drop(c)
    ensures TrimStart([c] + s, drop) == TrimStart(s, drop)
  {
    assert ([c] + s)[1..] == s;
  }

  /** A trailing character that trimming drops is trimmed away. */
  lemma TrimEndDropsOne(s: string, c: char, drop: char -> bool)
    requires drop(c)
    ensures TrimEnd(s + [c], drop) == TrimEnd(s, drop)
  {
    assert (s + [c])[..|s|] == s;
  }

  /**
   * A routes.txt row whose fields hold no comma reads back field by field:
   * the id, the two names without the quotes around them, and the type.
   */
  lemma RouteRowRoundTrip(id: string, agency: string, shortName: string, longName: string, desc: string, routeType: string)
    requires ',' !in id && ',' !in agency && ',' !in shortName && ',' !in longName && ',' !in desc && ',' !in routeType
    requires shortName == [] || (!IsQuote(shortName[0]) && !IsQuote(shortName[|shortName| - 1]))
    requires longName == [] || (!IsQuote(longName[0]) && !IsQuote(longName[|longName| - 1]))
    ensures RouteOfLine(Join([id, agency, Quoted(shortName), Quoted(longName), desc, routeType], ','))
         == RouteRecord(id, shortName, longName, routeType)
  {
    var fields := [id, agency, Quoted(shortName), Quoted(longName), desc, routeType];
    QuotedHasNoComma(shortName);
    QuotedHasNoComma(longName);
    assert fields[0] == id && fields[1] == agency && fields[2] == Quoted(shortName);
    assert fields[3] == Quoted(longName) && fields[4] == desc && fields[5] == routeType;
    RouteOfJoinedFields(fields);
    TrimQuoted(shortName);
    TrimQuoted(longName);
  }

  /** A row of six comma-free fields reads as the record of its fields 0, 2, 3 and 5. */
  lemma RouteOfJoinedFields(fields: seq<string>)
    requires |fields| == 6
    requires ',' !in fields[0] && ',' !in fields[1] && ',' !in fields[2]
    requires ',' !in fields[3] && ',' !in fields[4] && ',' !in fields[5]
    ensures RouteOfLine(Join(fields, ',')) == RouteRecord(fields[0], Trim(fields[2], IsQuote), Trim(fields[3], IsQuote), fields[5])
  {
    assert forall i :: 0 <= i < |fields| ==> ',' !in fields[i];
    SplitJoin(fields, ',');
  }

  /** Quoting adds no comma. */
  lemma QuotedHasNoComma(field: string)
    requires ',' !in field
    ensures ',' !in Quoted(field)
  {
  }

  /**
   * A quoted comma shifts the columns, since quotes do not protect it: when
   * the short name is `first,second`, the short name is read as `first`, the
   * long name as `second` and the type from the description column.
   */
  lemma QuotedCommaShiftsColumns(id: string, agency: string, first: string, second: string, longName: string, desc: string, routeType: string)
    requires forall f :: f in [id, agency, first, second, longName, desc, routeType] ==> ',' !in f
    requires first != [] && !IsQuote(first[0]) && !IsQuote(first[|first| - 1])
    requires second != [] && !IsQuote(second[0]) && !IsQuote(second[|second| - 1])
    ensures RouteOfLine(Join([id, agency, Quoted(first + "," + second), Quoted(longName), desc, routeType], ','))
         == RouteRecord(id, first, second, desc)
  {
    var row := [id, agency, Quoted(first + "," + second), Quoted(longName), desc, routeType];
    var fields := [id, agency, "\"" + first, second + "\"", Quoted(longName), desc, routeType];
    var tail := Join([Quoted(longName), desc, routeType], ',');
    assert row[2..][1..] == [Quoted(longName), desc, routeType];
    assert fields[3..][1..] == [Quoted(longName), desc, routeType];
    assert Join(row[2..], ',') == Quoted(first + "," + second) + [','] + tail;
    assert Join(fields[3..], ',') == (second + "\"") + [','] + tail;
    assert Join(fields[2..], ',') == ("\"" + first) + [','] + Join(fields[3..], ',');
    assert Join(row[2..], ',') == Join(fields[2..], ',');
    assert Join(row, ',') == Join(fields, ',') by {
      assert row[1..][1..] == row[2..] && fields[1..][1..] == fields[2..];
    }
    forall i | 0 <= i < |fields| ensures ',' !in fields[i] {
      assert fields[i] in [id, agency, first, second, longName, desc, routeType] || i in {2, 3, 4};
    }
    SplitJoin(fields, ',');
    assert Trim(fields[2], IsQuote) == first by {
      assert fields[2] == ['"'] + first;
      TrimStartDropsOne(first, '"', IsQuote);
    }
    assert Trim(fields[3], IsQuote) == second by {
      assert fields[3] == second + ['"'];
      assert fields[3][0] == second[0];
      TrimEndDropsOne(second, '"', IsQuote);
    }
  }

  /** The index of the first route whose id equals `routeId` ordinally, or -1. */
  function FirstIndexWithId(routes: seq<RouteRecord>, routeId: string): (i: int)
    ensures -1 <= i < |routes|
    ensures i == -1 <==> forall j :: 0 <= j < |routes| ==> routes[j].routeId != routeId
    ensures 0 <= i ==> routes[i].routeId == routeId && forall j :: 0 <= j < i ==> routes[j].routeId != routeId
    decreases |routes|
  {
    if routes == [] then -1
    else if routes[0].routeId == routeId then 0
    else
      var j := FirstIndexWithId(routes[1..], routeId);
      if j < 0 then -1 else j + 1
  }

  /** `FirstOrDefault(r => r.RouteId == routeId)`. */
  function FirstWithId(routes: seq<RouteRecord>, routeId: string): (r: Option<RouteRecord>)
  {
    var i := FirstIndexWithId(routes, routeId);
    if i < 0 then None else Some(routes[i])
  }

  // ---------------------------------------------------------------------------
  // shapes.txt
  // ---------------------------------------------------------------------------

  /** The shape id of a shapes.txt row: its first field with every quote removed. */
  function ShapeIdOf(line: string): string
  {
    RemoveChar(Split(line, ',')[0], '"')
  }

  /** The row filter of `GetRouteShape`: the shape id starts with the route id and an underscore. */
  predicate ShapeBelongsTo(line: string, routeId: string)
  {
    var parts := Split(line, ',');
    |parts| > 0 && StartsWith(RemoveChar(parts[0], '"'), routeId + "_")
  }

  /** The direction a shape id encodes in the character after its first underscore. */
  function ShapeDirection(shapeId: string): string
  {
    var u := IndexOfChar(shapeId, '_');
    if u >= 0 && |shapeId| > u + 1 then
      if shapeId[u + 1] == '1' then "outbound"
      else if shapeId[u + 1] == '2' then "inbound"
      else ""
    else ""
  }

  /** One shape point: the direction of the shape id and the coordinates, "0.0" where a field is missing. */
  function ShapePointOf(line: string): RouteShapePoint
  {
    var parts := Split(line, ',');
    RouteShapePoint(
      if |parts| > 0 then ShapeDirection(RemoveChar(parts[0], '"')) else "",
      if |parts| > 1 then parts[1] else "0.0",
      if |parts| > 2 then parts[2] else "0.0")
  }

  /** The rows of the route, in file order (the `Where` of `GetRouteShape`). */
  function ShapeRowsOf(lines: seq<string>, routeId: string): (rows: seq<string>)
    ensures |rows| <= |lines|
    ensures forall l :: l in rows <==> l in lines && ShapeBelongsTo(l, routeId)
  {
    if lines == [] then []
    else
      var n := |lines| - 1;
      assert lines == lines[..n] + [lines[n]];
      ShapeRowsOf(lines[..n], routeId) + (if ShapeBelongsTo(lines[n], routeId) then [lines[n]] else [])
  }

  /** The filter keeps file order: filtering two runs of rows is filtering each in turn. */
  lemma {:induction false} ShapeRowsOfAppend(a: seq<string>, b: seq<string>, routeId: string)
    ensures ShapeRowsOf(a + b, routeId) == ShapeRowsOf(a, routeId) + ShapeRowsOf(b, routeId)
    decreases |b|
  {
    if b == [] {
      assert a + b == a;
    } else {
      var n := |b| - 1;
      assert (a + b)[..|a + b| - 1] == a + b[..n];
      ShapeRowsOfAppend(a, b[..n], routeId);
    }
  }

  /** `GetRouteShape`: the points of the route's rows, in file order; a file without lines is invalid data. */
  function GetRouteShape(lines: seq<string>, routeId: string): (r: Result<seq<RouteShapePoint>, Error>)
    ensures r.Failure? <==> |lines| == 0
    ensures r.Failure? ==> r.error == InvalidData("No shape data available for route " + routeId + ".")
    ensures r.Success? ==>
      var rows := ShapeRowsOf(lines, routeId);
      |r.value| == |rows| && forall i :: 0 <= i < |rows| ==> r.value[i] == ShapePointOf(rows[i])
  {
    if |lines| > 0 then
      var rows := ShapeRowsOf(lines, routeId);
      Success(seq(|rows|, i requires 0 <= i < |rows| => ShapePointOf(rows[i])))
    else Failure(InvalidData("No shape data available for route " + routeId + "."))
  }

  /**
   * Route ids without underscores never share a shape row: the underscore
   * after the id keeps route "1" from taking the rows of route "10".
   */
  lemma ShapeFilterSeparatesRoutes(line: string, a: string, b: string)
    requires '_' !in a && '_' !in b
    requires ShapeBelongsTo(line, a) && ShapeBelongsTo(line, b)
    ensures a == b
  {
    var s := ShapeIdOf(line);
    FirstUnderscoreEndsRouteId(s, a);
    FirstUnderscoreEndsRouteId(s, b);
    assert a == s[..|a|] == b;
  }

  /** In a shape id that starts with an underscore-free route id and an underscore, that underscore is the first. */
  lemma FirstUnderscoreEndsRouteId(s: string, routeId: string)
    requires '_' !in routeId && StartsWith(s, routeId + "_")
    ensures IndexOfChar(s, '_') == |routeId|
  {
    var u := IndexOfChar(s, '_');
    assert s[|routeId|] == (routeId + "_")[|routeId|] == '_';
    assert forall k :: 0 <= k < |routeId| ==> s[k] == (routeId + "_")[k] == routeId[k];
    assert u >= 0 && u <= |routeId|;
  }

  /**
   * For a route id without underscores, the direction of each of its shape
   * rows is read from the character right after the id's underscore.
   */
  lemma ShapeDirectionOfRoute(routeId: string, c: char, rest: string)
    requires '_' !in routeId
    ensures ShapeDirection(routeId + "_" + [c] + rest) == if c == '1' then "outbound" else if c == '2' then "inbound" else ""
  {
    var s := routeId + "_" + [c] + rest;
    assert s[..|routeId| + 1] == routeId + "_";
    FirstUnderscoreEndsRouteId(s, routeId);
    assert s[|routeId| + 1] == c;
  }

  /**
   * A route id with an underscore hides the direction: for route `P_1`, the
   * shape ids `P_1_1…` and `P_1_2…` both belong to it, and both read
   * "outbound", from the `1` inside the id.
   */
  lemma UnderscoreInRouteIdHidesDirection(prefix: string, c: char, rest: string)
    requires '_' !in prefix
    ensures var routeId := prefix + "_1";
      var shapeId := routeId + "_" + [c] + rest;
      StartsWith(shapeId, routeId + "_") && ShapeDirection(shapeId) == "outbound"
  {
    var routeId := prefix + "_1";
    var shapeId := routeId + "_" + [c] + rest;
    assert shapeId == prefix + "_" + ['1'] + ("_" + [c] + rest);
    ShapeDirectionOfRoute(prefix, '1', "_" + [c] + rest);
    assert shapeId[..|routeId| + 1] == routeId + "_";
  }

  // ---------------------------------------------------------------------------
  // Static file passthrough.
  // ---------------------------------------------------------------------------

  /** `GetAllStaticFileData`: the file's lines, or invalid data when it has none. */
  function GetAllStaticFileData(lines: seq<string>, file: GtfsStaticDataFile): (r: Result<seq<string>, Error>)
    ensures r.Failure? <==> |lines| == 0
    ensures r.Success? ==> r.value == lines
    ensures r.Failure? ==> r.error == InvalidData("No data available in the file " + MemberName(file) + ".")
  {
    if |lines| > 0 then Success(lines)
    else Failure(InvalidData("No data available in the file " + MemberName(file) + "."))
  }

  // ---------------------------------------------------------------------------
  // The realtime feed.
  // ---------------------------------------------------------------------------

  /** `Entity.Where(e => e.Vehicle != null).Select(e => e.Vehicle)`, in feed order. */
  function VehiclesOf(entities: seq<FeedEntity>): (vs: seq<VehiclePosition>)
    ensures |vs| <= |entities|
    ensures |vs| == 0 <==> forall i :: 0 <= i < |entities| ==> entities[i].vehicle.None?
  {
    if entities == [] then []
    else
      var n := |entities| - 1;
      var rest := VehiclesOf(entities[..n]);
      assert forall i :: 0 <= i < n ==> entities[..n][i] == entities[i];
      rest + (if entities[n].vehicle.Some? then [entities[n].vehicle.value] else [])
  }

  /** A vehicle whose trip and position are both set: reading either of them is safe. */
  predicate Complete(v: VehiclePosition)
  {
    v.trip.Some? && v.position.Some?
  }

  /** How a position is listed: `$"{lat},{lng}"`. */
  function FormatPosition(p: Position): string
  {
    p.latitude + "," + p.longitude
  }

  /** The (route id, position) pair each vehicle contributes, in feed order. */
  function EntriesOf(vs: seq<VehiclePosition>): seq<(string, string)>
    requires forall i :: 0 <= i < |vs| ==> Complete(vs[i])
  {
    seq(|vs|, i requires 0 <= i < |vs| && Complete(vs[i]) => (vs[i].trip.value.routeId, FormatPosition(vs[i].position.value)))
  }

  /**
   * `GetPositions` over the feed: the feed's own failure passes through, a
   * feed without vehicles is invalid data, a vehicle without trip or
   * position is a null dereference, and otherwise the positions are grouped
   * by route id in the case-insensitive dictionary.
   */
  function PositionsOf(feed: Result<seq<FeedEntity>, Error>): (r: Result<VehicleCurrentPosition, Error>)
  {
    if feed.Failure? then Failure(feed.error)
    else
      var vs := VehiclesOf(feed.value);
      if |vs| == 0 then Failure(InvalidData("No vehicle positions available in the realtime data."))
      else if exists i :: 0 <= i < |vs| && !Complete(vs[i]) then Failure(NullReference)
      else Success(GroupPositions(EntriesOf(vs)))
  }

  /**
   * What `GetPositions` promises: it fails exactly when the feed fails, holds
   * no vehicle or holds an incomplete one; otherwise the dictionary is well
   * formed and lists under each key exactly the positions of the vehicles
   * whose route id matches it ignoring case, in feed order.
   */
  lemma PositionsGroupByRoute(feed: Result<seq<FeedEntity>, Error>, key: string)
    ensures PositionsOf(feed).Failure? <==>
      feed.Failure? || |VehiclesOf(feed.value)| == 0 || exists i :: 0 <= i < |VehiclesOf(feed.value)| && !Complete(VehiclesOf(feed.value)[i])
    ensures PositionsOf(feed).Success? ==>
      var vs := VehiclesOf(feed.value);
      var d := PositionsOf(feed).value;
      && WellFormed(d)
      && Lookup(d, key) == if PositionsFor(EntriesOf(vs), key) == [] then None else Some(PositionsFor(EntriesOf(vs), key))
  {
    if PositionsOf(feed).Success? {
      GroupPositionsSpec(EntriesOf(VehiclesOf(feed.value)), key);
    }
  }

  /** `positions.Where(kvp => kvp.Key == routeId).SelectMany(kvp => kvp.Value)`: ordinal key comparison. */
  function ExactMatches(groups: seq<RouteGroup>, routeId: string): seq<string>
  {
    if groups == [] then []
    else
      var n := |groups| - 1;
      ExactMatches(groups[..n], routeId) + (if groups[n].routeId == routeId then groups[n].positions else [])
  }

  /** `GetCurrentVehiclesPositionsByRoute` on the grouped positions: a single-key dictionary. */
  function PositionsByRoute(d: VehicleCurrentPosition, routeId: string): (r: VehicleCurrentPosition)
    ensures WellFormed(r) && Keys(r) == [routeId]
  {
    Singleton(routeId, ExactMatches(d.groups, routeId))
  }

  /** `GetCurrentVehiclesPositionsByRoute` over the feed. */
  function RoutePositions(feed: Result<seq<FeedEntity>, Error>, routeId: string): (r: Result<VehicleCurrentPosition, Error>)
  {
    match PositionsOf(feed)
    case Failure(e) => Failure(e)
    case Success(d) => Success(PositionsByRoute(d, routeId))
  }

  /**
   * In a dictionary whose keys differ ignoring case, at most one key equals
   * `routeId` exactly; the ordinal selection is that key's list, or empty.
   */
  lemma {:induction false} ExactMatchesOfDistinctKeys(groups: seq<RouteGroup>, routeId: string)
    requires WellFormed(VehicleCurrentPosition(groups))
    ensures ExactMatches(groups, routeId) ==
      if routeId in Keys(VehicleCurrentPosition(groups)) then Lookup(VehicleCurrentPosition(groups), routeId).value else []
  {
    var d := VehicleCurrentPosition(groups);
    IgnoreCaseIsCoarser();
    if groups != [] {
      var n := |groups| - 1;
      var p := VehicleCurrentPosition(groups[..n]);
      ExactMatchesOfDistinctKeys(groups[..n], routeId);
      assert Keys(d) == Keys(p) + [groups[n].routeId];
      if groups[n].routeId == routeId {
        if routeId in Keys(p) {
          assert false;
        }
        UniqueKeyIndex(d, n, routeId);
      } else if routeId in Keys(p) {
        var k :| 0 <= k < n && Keys(p)[k] == routeId;
        UniqueKeyIndex(p, k, routeId);
        UniqueKeyIndex(d, k, routeId);
      }
    }
  }

  /**
   * The by-route dictionary holds the route's list only under an exact-case
   * match; a key that differs in case gives an empty list.
   */
  lemma ByRouteMatchesExactCase(d: VehicleCurrentPosition, routeId: string)
    requires WellFormed(d)
    ensures Lookup(PositionsByRoute(d, routeId), routeId) ==
      Some(if routeId in Keys(d) then Lookup(d, routeId).value else [])
  {
    ExactMatchesOfDistinctKeys(d.groups, routeId);
  }

  /** The case-insensitive dictionary knows route `a1` when the feed says `A1`, but the by-route read does not. */
  lemma ByRouteIsCaseSensitive()
    ensures ContainsKey(Singleton("A1", ["45.8,16.0"]), "a1")
    ensures Lookup(PositionsByRoute(Singleton("A1", ["45.8,16.0"]), "a1"), "a1") == Some([])
  {
    assert Upper("A1") == Upper("a1") == "A1";
    assert "a1" !in Keys(Singleton("A1", ["45.8,16.0"]));
    ByRouteMatchesExactCase(Singleton("A1", ["45.8,16.0"]), "a1");
  }

  // ---------------------------------------------------------------------------
  // The enhanced views.
  // ---------------------------------------------------------------------------

  /** A listed position as a vehicle: both of its first two comma-separated fields must parse. */
  function VehicleOf(position: string, parse: string -> Option<real>, now: int): Option<VehiclePositionData>
  {
    var coords := Split(position, ',');
    if |coords| >= 2 && parse(coords[0]).Some? && parse(coords[1]).Some? then
      Some(VehiclePositionData(parse(coords[0]).value, parse(coords[1]).value, now))
    else None
  }

  /** The vehicles of a route's positions, in order, skipping the positions that do not parse. */
  function VehiclesFrom(positions: seq<string>, parse: string -> Option<real>, now: int): (vs: seq<VehiclePositionData>)
    ensures |vs| <= |positions|
  {
    if positions == [] then []
    else
      var n := |positions| - 1;
      VehiclesFrom(positions[..n], parse, now)
        + (if VehicleOf(positions[n], parse, now).Some? then [VehicleOf(positions[n], parse, now).value] else [])
  }

  /** A position as `GetPositions` lists it reads back as the vehicle at those coordinates. */
  lemma VehicleOfFormattedPosition(p: Position, parse: string -> Option<real>, now: int)
    requires ',' !in p.latitude && ',' !in p.longitude
    requires parse(p.latitude).Some? && parse(p.longitude).Some?
    ensures VehicleOf(FormatPosition(p), parse, now) == Some(VehiclePositionData(parse(p.latitude).value, parse(p.longitude).value, now))
  {
    assert Join([p.latitude, p.longitude], ',') == FormatPosition(p);
    SplitJoin([p.latitude, p.longitude], ',');
  }

  /** When every position parses, each gives exactly one vehicle, in order. */
  lemma {:induction false} VehiclesFromAllParsable(positions: seq<string>, parse: string -> Option<real>, now: int)
    requires forall i :: 0 <= i < |positions| ==> VehicleOf(positions[i], parse, now).Some?
    ensures |VehiclesFrom(positions, parse, now)| == |positions|
    ensures forall i :: 0 <= i < |positions| ==> VehiclesFrom(positions, parse, now)[i] == VehicleOf(positions[i], parse, now).value
  {
    if positions != [] {
      var n := |positions| - 1;
      VehiclesFromAllParsable(positions[..n], parse, now);
    }
  }

  /** The route type an enhanced view reports: the route's type when it parses as an integer, 3 (bus) otherwise. */
  function RouteTypeOf(info: Option<RouteRecord>): Int32
  {
    if info.Some? && TryParseInt32(info.value.routeType).Some? then TryParseInt32(info.value.routeType).value else 3
  }

  /**
   * One enhanced entry: the names of the route information without quotes,
   * or the route id and an empty long name when there is none.
   */
  function EnhanceRoute(routeId: string, info: Option<RouteRecord>, vehicles: seq<VehiclePositionData>): (e: EnhancedVehiclePosition)
    ensures e.routeId == routeId && e.vehicles == vehicles
    ensures info.None? ==> e.routeShortName == routeId && e.routeLongName == "" && e.routeType == 3
    ensures info.Some? ==> '"' !in e.routeShortName && '"' !in e.routeLongName
    ensures info.Some? ==> |e.routeShortName| == |info.value.routeShortName| - CountChar(info.value.routeShortName, '"')
    ensures e.routeType != 3 ==> info.Some? && TryParseInt32(info.value.routeType) == Some(e.routeType)
    ensures info.Some? && TryParseInt32(info.value.routeType).Some? ==> e.routeType == TryParseInt32(info.value.routeType).value
    ensures info.Some? && TryParseInt32(info.value.routeType).None? ==> e.routeType == 3
    ensures info.Some? ==> e.routeShortName == RemoveChar(info.value.routeShortName, '"') && e.routeLongName == RemoveChar(info.value.routeLongName, '"')
  {
    EnhancedVehiclePosition(
      routeId,
      if info.Some? then RemoveChar(info.value.routeShortName, '"') else routeId,
      if info.Some? then RemoveChar(info.value.routeLongName, '"') else "",
      RouteTypeOf(info),
      vehicles)
  }

  /** A route whose information has an empty short name keeps it empty: the route id is only the fallback for no information. */
  lemma EmptyShortNameIsKept(routeId: string, info: RouteRecord, vehicles: seq<VehiclePositionData>)
    requires info.routeShortName == ""
    ensures EnhanceRoute(routeId, Some(info), vehicles).routeShortName == ""
  {
  }

  /**
   * `GetRouteInfo` as a transition of the cache: a cached route is returned;
   * otherwise the routes file is read (its failure propagates), the first
   * route with that id is looked up, and only a found route is cached, for
   * the static TTL.
   */
  function RouteInfoRead(s: CacheState, ttl: int, routeId: string, lines: seq<string>, now: int)
    : (r: (CacheState, Result<Option<RouteRecord>, Error>))
  {
    var key := GetRouteInfoKey(routeId);
    var (s1, cached) := Get(s, key, RouteKind, now);
    if cached.Route? then (s1, Success(Some(cached.route)))
    else
      match GetAllRoutes(lines)
      case Failure(e) => (s1, Failure(e))
      case Success(routes) =>
        match FirstWithId(routes, routeId)
        case None => (s1, Success(None))
        case Some(route) =>
          match Set(s1, key, Route(route), RouteKind, ttl, now)
          case Failure(e) => (s1, Failure(e))
          case Success(s2) => (s2, Success(Some(route)))
  }

  /** A route found in the cache is returned as it is, without reading the routes file. */
  lemma RouteInfoHitSkipsRoutesFile(s: CacheState, ttl: int, routeId: string, lines: seq<string>, now: int, route: RouteRecord)
    requires Live(s, GetRouteInfoKey(routeId), now) && s.store[GetRouteInfoKey(routeId)].value == Route(route)
    ensures RouteInfoRead(s, ttl, routeId, lines, now) == (Get(s, GetRouteInfoKey(routeId), RouteKind, now).0, Success(Some(route)))
  {
  }

  /**
   * On a read that finds no cached route, an empty routes file fails and an
   * unknown route is not cached: the state is what the read left.
   */
  lemma RouteInfoMissCachesNothingUnfound(s: CacheState, ttl: int, routeId: string, lines: seq<string>, now: int)
    requires !Live(s, GetRouteInfoKey(routeId), now)
    ensures var (r, result) := RouteInfoRead(s, ttl, routeId, lines, now);
      var s1 := Get(s, GetRouteInfoKey(routeId), RouteKind, now).0;
      && (|lines| == 0 ==> result == Failure(InvalidData("No route data available.")) && r == s1)
      && (result == Success(None) <==> |lines| > 0 && forall i :: 0 <= i < |lines| ==> RouteOfLine(lines[i]).routeId != routeId)
      && (result == Success(None) ==> r == s1)
  {
  }

  /**
   * On a read that finds no cached route, a known route is the first of the
   * routes file with that id and, when the TTL is positive and the entry
   * fits, it is cached under the route's key until the TTL runs out.
   */
  lemma RouteInfoMissCachesFoundRoute(s: CacheState, ttl: int, routeId: string, lines: seq<string>, now: int, t: int, i: nat)
    requires !Live(s, GetRouteInfoKey(routeId), now)
    requires i < |lines| && RouteOfLine(lines[i]).routeId == routeId
    requires forall j :: 0 <= j < i ==> RouteOfLine(lines[j]).routeId != routeId
    requires ttl > 0 && now <= t < now + ttl
    requires Fits(Get(s, GetRouteInfoKey(routeId), RouteKind, now).0, 1)
    ensures var (r, result) := RouteInfoRead(s, ttl, routeId, lines, now);
      && result == Success(Some(RouteOfLine(lines[i])))
      && Get(r, GetRouteInfoKey(routeId), RouteKind, t).1 == Route(RouteOfLine(lines[i]))
  {
    var key := GetRouteInfoKey(routeId);
    var s1 := Get(s, key, RouteKind, now).0;
    var routes := GetAllRoutes(lines).value;
    var k := FirstIndexWithId(routes, routeId);
    assert routes[i] == RouteOfLine(lines[i]);
    assert k == i;
    var route := RouteOfLine(lines[i]);
    assert SizeUnits(EstimateObjectSize(Route(route))) == 1;
    SetThenGet(s1, key, Route(route), RouteKind, ttl, now, t);
  }

  /** A route-information lookup: a transition of the cache that answers a route's record, if one is known. */
  type RouteLookup = (CacheState, string) -> (CacheState, Result<Option<RouteRecord>, Error>)

  /** `GetRouteInfo` as a lookup, with the TTL, the routes file and the clock of the enclosing call. */
  function RouteInfoLookup(ttl: int, lines: seq<string>, now: int): RouteLookup
  {
    (s, routeId) => RouteInfoRead(s, ttl, routeId, lines, now)
  }

  /**
   * `GetAllVehiclesCurrentPositionsEnhanced` after the positions are
   * grouped: one entry per route, in dictionary order, each looking up its
   * route information through the cache; the first failing lookup ends it.
   */
  function EnhanceGroups(s: CacheState, lookup: RouteLookup, groups: seq<RouteGroup>, parse: string -> Option<real>, now: int)
    : (r: (CacheState, Result<seq<EnhancedVehiclePosition>, Error>))
  {
    if groups == [] then (s, Success([]))
    else
      var n := |groups| - 1;
      var (s1, r1) := EnhanceGroups(s, lookup, groups[..n], parse, now);
      if r1.Failure? then (s1, r1)
      else
        var (s2, info) := lookup(s1, groups[n].routeId);
        if info.Failure? then (s2, Failure(info.error))
        else (s2, Success(r1.value + [EnhanceRoute(groups[n].routeId, info.value, VehiclesFrom(groups[n].positions, parse, now))]))
  }

  /** One more route: the view of a prefix of the groups, extended by the next route's lookup. */
  lemma EnhanceGroupsStep(s: CacheState, lookup: RouteLookup, groups: seq<RouteGroup>, i: nat, parse: string -> Option<real>, now: int,
                          s1: CacheState, enhanced: seq<EnhancedVehiclePosition>, s2: CacheState, info: Result<Option<RouteRecord>, Error>)
    requires i < |groups|
    requires EnhanceGroups(s, lookup, groups[..i], parse, now) == (s1, Success(enhanced))
    requires lookup(s1, groups[i].routeId) == (s2, info)
    ensures EnhanceGroups(s, lookup, groups[..i + 1], parse, now) ==
      if info.Failure? then (s2, Failure(info.error))
      else (s2, Success(enhanced + [EnhanceRoute(groups[i].routeId, info.value, VehiclesFrom(groups[i].positions, parse, now))]))
  {
    assert groups[..i + 1][..i] == groups[..i];
  }

  /** The first failing lookup ends the view: nothing after it is looked up. */
  lemma {:induction false} EnhanceGroupsStopsAtFailure(s: CacheState, lookup: RouteLookup, groups: seq<RouteGroup>, k: nat, parse: string -> Option<real>, now: int)
    requires k <= |groups|
    requires EnhanceGroups(s, lookup, groups[..k], parse, now).1.Failure?
    ensures EnhanceGroups(s, lookup, groups, parse, now) == EnhanceGroups(s, lookup, groups[..k], parse, now)
    decreases |groups| - k
  {
    if k < |groups| {
      var n := |groups| - 1;
      assert groups[..n][..k] == groups[..k];
      EnhanceGroupsStopsAtFailure(s, lookup, groups[..n], k, parse, now);
    } else {
      assert groups[..k] == groups;
    }
  }

  /** The all-routes view has one entry per route, in dictionary order, with that route's parsed vehicles. */
  lemma {:induction false} EnhanceGroupsListsEveryRoute(s: CacheState, lookup: RouteLookup, groups: seq<RouteGroup>, parse: string -> Option<real>, now: int)
    ensures var r := EnhanceGroups(s, lookup, groups, parse, now).1;
      r.Success? ==>
        && |r.value| == |groups|
        && forall i :: 0 <= i < |groups| ==>
             r.value[i].routeId == groups[i].routeId && r.value[i].vehicles == VehiclesFrom(groups[i].positions, parse, now)
  {
    if groups != [] {
      var n := |groups| - 1;
      EnhanceGroupsListsEveryRoute(s, lookup, groups[..n], parse, now);
      var (s1, r1) := EnhanceGroups(s, lookup, groups[..n], parse, now);
      if r1.Success? {
        var (s2, info) := lookup(s1, groups[n].routeId);
        EnhanceGroupsStep(s, lookup, groups, n, parse, now, s1, r1.value, s2, info);
        assert groups[..n + 1] == groups;
      }
    }
  }

  /** The routes file is read only when some route is not cached: with no lines every lookup that misses fails. */
  lemma EnhanceGroupsFailsWithoutRoutes(s: CacheState, ttl: int, group: RouteGroup, parse: string -> Option<real>, now: int)
    requires !Live(s, GetRouteInfoKey(group.routeId), now)
    ensures EnhanceGroups(s, RouteInfoLookup(ttl, [], now), [group], parse, now).1 == Failure(InvalidData("No route data available."))
  {
    assert [group][..0] == [];
  }

  /** `GetAllVehiclesCurrentPositionsEnhanced` over the feed. */
  function AllEnhanced(s: CacheState, lookup: RouteLookup, feed: Result<seq<FeedEntity>, Error>, parse: string -> Option<real>, now: int)
    : (r: (CacheState, Result<seq<EnhancedVehiclePosition>, Error>))
  {
    match PositionsOf(feed)
    case Failure(e) => (s, Failure(e))
    case Success(d) => EnhanceGroups(s, lookup, d.groups, parse, now)
  }

  /**
   * `GetCurrentVehiclesPositionsByRouteEnhanced` over the feed: no entry
   * (and no route lookup) when the dictionary has no key equal to the route
   * id ignoring case; otherwise the entry carries the requested id.
   */
  function RouteEnhanced(s: CacheState, lookup: RouteLookup, routeId: string, feed: Result<seq<FeedEntity>, Error>, parse: string -> Option<real>, now: int)
    : (r: (CacheState, Result<Option<EnhancedVehiclePosition>, Error>))
  {
    match PositionsOf(feed)
    case Failure(e) => (s, Failure(e))
    case Success(d) =>
      if !ContainsKey(d, routeId) then (s, Success(None))
      else
        var (s1, info) := lookup(s, routeId);
        if info.Failure? then (s1, Failure(info.error))
        else (s1, Success(Some(EnhanceRoute(routeId, info.value, VehiclesFrom(Lookup(d, routeId).value, parse, now)))))
  }

  /**
   * The two enhanced views agree on the vehicles: the per-route entry of a
   * route the feed lists holds the same vehicles as that route's entry in
   * the all-routes view, and a route the feed does not list has no entry.
   */
  lemma EnhancedViewsAgree(s: CacheState, t: CacheState, lookup: RouteLookup, feed: Result<seq<FeedEntity>, Error>, parse: string -> Option<real>, now: int, i: int)
    requires PositionsOf(feed).Success? && 0 <= i < |PositionsOf(feed).value.groups|
    requires AllEnhanced(s, lookup, feed, parse, now).1.Success?
    requires RouteEnhanced(t, lookup, PositionsOf(feed).value.groups[i].routeId, feed, parse, now).1.Success?
    ensures var routeId := PositionsOf(feed).value.groups[i].routeId;
      var one := RouteEnhanced(t, lookup, routeId, feed, parse, now).1.value;
      && one.Some?
      && i < |AllEnhanced(s, lookup, feed, parse, now).1.value|
      && one.value.vehicles == AllEnhanced(s, lookup, feed, parse, now).1.value[i].vehicles
  {
    var d := PositionsOf(feed).value;
    PositionsGroupByRoute(feed, d.groups[i].routeId);
    IgnoreCaseIsCoarser();
    UniqueKeyIndex(d, i, d.groups[i].routeId);
    EnhanceGroupsListsEveryRoute(s, lookup, d.groups, parse, now);
  }

  // ---------------------------------------------------------------------------
  // The service.
  // ---------------------------------------------------------------------------

  class GtfsService {
    const cache: MemoryCacheService.MemoryCacheService
    const options: CO.CacheOptions

    constructor(cache: MemoryCacheService.MemoryCacheService, options: CO.CacheOptions)
      ensures this.cache == cache && this.options == options
    {
      this.cache := cache;
      this.options := options;
    }

    /** The grouping loop of `GetPositions`. */
    method GetPositions(feed: Result<seq<FeedEntity>, Error>) returns (r: Result<VehicleCurrentPosition, Error>)
      ensures r == PositionsOf(feed)
    {
      if feed.Failure? {
        return Failure(feed.error);
      }
      var vehiclePositions := VehiclesOf(feed.value);
      if |vehiclePositions| == 0 {
        return Failure(InvalidData("No vehicle positions available in the realtime data."));
      }
      var d := VehicleCurrentPosition([]);
      for i := 0 to |vehiclePositions|
        invariant forall j :: 0 <= j < i ==> Complete(vehiclePositions[j])
        invariant d == GroupPositions(EntriesOf(vehiclePositions[..i]))
      {
        var vehicle := vehiclePositions[i];
        if vehicle.trip.None? || vehicle.position.None? {
          return Failure(NullReference);
        }
        var entries := EntriesOf(vehiclePositions[..i]);
        var position := FormatPosition(vehicle.position.value);
        assert EntriesOf(vehiclePositions[..i + 1]) == entries + [(vehicle.trip.value.routeId, position)];
        assert (entries + [(vehicle.trip.value.routeId, position)])[..|entries|] == entries;
        d := AddPosition(d, vehicle.trip.value.routeId, position);
      }
      assert vehiclePositions[..|vehiclePositions|] == vehiclePositions;
      return Success(d);
    }

    method GetAllVechiclesCurrentPositions(feed: Result<seq<FeedEntity>, Error>) returns (r: Result<VehicleCurrentPosition, Error>)
      ensures r == PositionsOf(feed)
    {
      r := GetPositions(feed);
    }

    method GetCurrentVehiclesPositionsByRoute(routeId: string, feed: Result<seq<FeedEntity>, Error>) returns (r: Result<VehicleCurrentPosition, Error>)
      ensures r == RoutePositions(feed, routeId)
    {
      var positions := GetPositions(feed);
      if positions.Failure? {
        return Failure(positions.error);
      }
      r := Success(PositionsByRoute(positions.value, routeId));
    }

    method GetRouteInfo(routeId: string, lines: seq<string>, now: int) returns (r: Result<Option<RouteRecord>, Error>)
      requires cache.Valid()
      modifies cache
      ensures cache.Valid()
      ensures (cache.State(), r) == RouteInfoRead(old(cache.State()), options.staticTtl, routeId, lines, now)
    {
      var key := GetRouteInfoKey(routeId);
      var cachedRoute := cache.GetAsync(key, RouteKind, now);
      if !cachedRoute.Null? {
        return Success(Some(cachedRoute.route));
      }
      var allRoutes := GetAllRoutes(lines);
      if allRoutes.Failure? {
        return Failure(allRoutes.error);
      }
      var route := FirstWithId(allRoutes.value, routeId);
      if route.Some? {
        var outcome := cache.SetAsync(key, Route(route.value), RouteKind, options.staticTtl, now);
        if outcome.Fail? {
          return Failure(outcome.error);
        }
      }
      return Success(route);
    }

    /** The vehicle loop of the enhanced views. */
    method CollectVehicles(positions: seq<string>, parse: string -> Option<real>, now: int) returns (vehicles: seq<VehiclePositionData>)
      ensures vehicles == VehiclesFrom(positions, parse, now)
    {
      vehicles := [];
      for i := 0 to |positions|
        invariant vehicles == VehiclesFrom(positions[..i], parse, now)
      {
        assert positions[..i + 1][..i] == positions[..i];
        var coords := Split(positions[i], ',');
        if |coords| >= 2 && parse(coords[0]).Some? && parse(coords[1]).Some? {
          vehicles := vehicles + [VehiclePositionData(parse(coords[0]).value, parse(coords[1]).value, now)];
        }
      }
      assert positions[..|positions|] == positions;
    }

    method GetAllVehiclesCurrentPositionsEnhanced(feed: Result<seq<FeedEntity>, Error>, lines: seq<string>, parse: string -> Option<real>, now: int)
      returns (r: Result<seq<EnhancedVehiclePosition>, Error>)
      requires cache.Valid()
      modifies cache
      ensures cache.Valid()
      ensures (cache.State(), r) == AllEnhanced(old(cache.State()), RouteInfoLookup(options.staticTtl, lines, now), feed, parse, now)
    {
      var positions := GetPositions(feed);
      if positions.Failure? {
        return Failure(positions.error);
      }
      var groups := positions.value.groups;
      var enhancedPositions := [];
      for i := 0 to |groups|
        invariant cache.Valid()
        invariant (cache.State(), Success(enhancedPositions)) == EnhanceGroups(old(cache.State()), RouteInfoLookup(options.staticTtl, lines, now), groups[..i], parse, now)
      {
        ghost var before := cache.State();
        var routeId := groups[i].routeId;
        var routeInfo := GetRouteInfo(routeId, lines, now);
        assert RouteInfoLookup(options.staticTtl, lines, now)(before, routeId) == (cache.State(), routeInfo);
        EnhanceGroupsStep(old(cache.State()), RouteInfoLookup(options.staticTtl, lines, now), groups, i, parse, now,
                          before, enhancedPositions, cache.State(), routeInfo);
        if routeInfo.Failure? {
          assert AllEnhanced(old(cache.State()), RouteInfoLookup(options.staticTtl, lines, now), feed, parse, now)
              == EnhanceGroups(old(cache.State()), RouteInfoLookup(options.staticTtl, lines, now), groups, parse, now);
          EnhanceGroupsStopsAtFailure(old(cache.State()), RouteInfoLookup(options.staticTtl, lines, now), groups, i + 1, parse, now);
          return Failure(routeInfo.error);
        }
        var vehicles := CollectVehicles(groups[i].positions, parse, now);
        enhancedPositions := enhancedPositions + [EnhanceRoute(routeId, routeInfo.value, vehicles)];
      }
      assert groups[..|groups|] == groups;
      return Success(enhancedPositions);
    }

    method GetCurrentVehiclesPositionsByRouteEnhanced(routeId: string, feed: Result<seq<FeedEntity>, Error>, lines: seq<string>, parse: string -> Option<real>, now: int)
      returns (r: Result<Option<EnhancedVehiclePosition>, Error>)
      requires cache.Valid()
      modifies cache
      ensures cache.Valid()
      ensures (cache.State(), r) == RouteEnhanced(old(cache.State()), RouteInfoLookup(options.staticTtl, lines, now), routeId, feed, parse, now)
    {
      var positions := GetPositions(feed);
      if positions.Failure? {
        return Failure(positions.error);
      }
      if !ContainsKey(positions.value, routeId) {
        return Success(None);
      }
      var vehiclePositions := Lookup(positions.value, routeId).value;
      var routeInfo := GetRouteInfo(routeId, lines, now);
      if routeInfo.Failure? {
        return Failure(routeInfo.error);
      }
      var vehicles := CollectVehicles(vehiclePositions, parse, now);
      return Success(Some(EnhanceRoute(routeId, routeInfo.value, vehicles)));
    }
  }
}
