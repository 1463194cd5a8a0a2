/**
 * The records the GTFS service produces and consumes: route rows, shape
 * points, the route-to-positions dictionary (`VehicleCurrentPosition`, keyed
 * case-insensitively and enumerated in insertion order), the enhanced views,
 * and the parts of a decoded GTFS Realtime feed the service reads.
 */
module GtfsModels {
  import opened Wrappers
  import opened Int32
  import opened Text

  /** `JsonSerializedRoutes`. */
  datatype RouteRecord = RouteRecord(
    routeId: string,
    routeShortName: string,
    routeLongName: string,
    routeType: string)

  /** `JsonSerializedRouteShapes`. */
  datatype RouteShapePoint = RouteShapePoint(
    direction: string,
    latitude: string,
    longitude: string)

  /** `VehiclePositionData`; coordinates are the parsed numbers, `lastUpdate` the clock reading. */
  datatype VehiclePositionData = VehiclePositionData(
    latitude: real,
    longitude: real,
    lastUpdate: int)

  /** `EnhancedVehiclePosition`. */
  datatype EnhancedVehiclePosition = EnhancedVehiclePosition(
    routeId: string,
    routeShortName: string,
    routeLongName: string,
    routeType: Int32,
    vehicles: seq<VehiclePositionData>)

  // ---------------------------------------------------------------------------
  // The decoded realtime feed: only the fields the service reads. A message
  // field that is not set reads as null, hence the options.
  // ---------------------------------------------------------------------------

  datatype TripDescriptor = TripDescriptor(routeId: string)

  /** A position as the service formats it: the text of each coordinate. */
  datatype Position = Position(latitude: string, longitude: string)

  datatype VehiclePosition = VehiclePosition(trip: Option<TripDescriptor>, position: Option<Position>)

  datatype FeedEntity = FeedEntity(vehicle: Option<VehiclePosition>)

  // ---------------------------------------------------------------------------
  // VehicleCurrentPosition: a dictionary with StringComparer.OrdinalIgnoreCase.
  // ---------------------------------------------------------------------------

  datatype RouteGroup = RouteGroup(routeId: string, positions: seq<string>)

  /** The entries in insertion order; the key of each is the spelling first inserted. */
  datatype VehicleCurrentPosition = VehicleCurrentPosition(groups: seq<RouteGroup>)

  /** No two keys are equal under the dictionary's comparer. */
  predicate WellFormed(d: VehicleCurrentPosition)
  {
    forall i, j :: 0 <= i < j < |d.groups| ==> !EqualsIgnoreCase(d.groups[i].routeId, d.groups[j].routeId)
  }

  /** The index of the entry whose key matches `key` under the comparer, or -1. */
  function IndexOfKey(groups: seq<RouteGroup>, key: string): (i: int)
    ensures -1 <= i < |groups|
    ensures i == -1 <==> forall j :: 0 <= j < |groups| ==> !EqualsIgnoreCase(groups[j].routeId, key)
    ensures 0 <= i ==> EqualsIgnoreCase(groups[i].routeId, key)
  {
    if groups == [] then -1
    else if EqualsIgnoreCase(groups[|groups| - 1].routeId, key) then |groups| - 1
    else IndexOfKey(groups[..|groups| - 1], key)
  }

  /** `ContainsKey`, case-insensitive. */
  predicate ContainsKey(d: VehicleCurrentPosition, key: string)
  {
    IndexOfKey(d.groups, key) >= 0
  }

  /** The indexer `d[key]`, case-insensitive; `None` where the indexer would throw. */
  function Lookup(d: VehicleCurrentPosition, key: string): (r: Option<seq<string>>)
    ensures r.Some? <==> ContainsKey(d, key)
  {
    var i := IndexOfKey(d.groups, key);
    if i < 0 then None else Some(d.groups[i].positions)
  }

  /** The keys in enumeration order. */
  function Keys(d: VehicleCurrentPosition): (ks: seq<string>)
    ensures |ks| == |d.groups|
    ensures forall i :: 0 <= i < |ks| ==> ks[i] == d.groups[i].routeId
  {
    seq(|d.groups|, i requires 0 <= i < |d.groups| => d.groups[i].routeId)
  }

  /**
   * One step of the grouping loop: create the list under `routeId` unless a key
   * equal to it ignoring case exists, then append `position` to that list.
   */
  function AddPosition(d: VehicleCurrentPosition, routeId: string, position: string): (r: VehicleCurrentPosition)
  {
    var i := IndexOfKey(d.groups, routeId);
    if i < 0 then VehicleCurrentPosition(d.groups + [RouteGroup(routeId, [position])])
    else VehicleCurrentPosition(d.groups[i := RouteGroup(d.groups[i].routeId, d.groups[i].positions + [position])])
  }

  /** A dictionary holding exactly the given single-key entry (a collection initializer). */
  function Singleton(routeId: string, positions: seq<string>): (d: VehicleCurrentPosition)
    ensures WellFormed(d) && Keys(d) == [routeId] && Lookup(d, routeId) == Some(positions)
  {
    VehicleCurrentPosition([RouteGroup(routeId, positions)])
  }

  /** The grouping of `(routeId, position)` pairs, in feed order. */
  function GroupPositions(entries: seq<(string, string)>): VehicleCurrentPosition
  {
    if entries == [] then VehicleCurrentPosition([])
    else
      var last := entries[|entries| - 1];
      AddPosition(GroupPositions(entries[..|entries| - 1]), last.0, last.1)
  }

  /** The positions of the pairs whose route id equals `key` ignoring case, in order. */
  function PositionsFor(entries: seq<(string, string)>, key: string): seq<string>
  {
    if entries == [] then []
    else
      var last := entries[|entries| - 1];
      PositionsFor(entries[..|entries| - 1], key) + (if EqualsIgnoreCase(last.0, key) then [last.1] else [])
  }

  lemma EqualsIgnoreCaseIsEquivalence(a: string, b: string, c: string)
    ensures EqualsIgnoreCase(a, b) == EqualsIgnoreCase(b, a)
    ensures EqualsIgnoreCase(a, b) && EqualsIgnoreCase(b, c) ==> EqualsIgnoreCase(a, c)
  {
  }

  /** Adding a position keeps the keys distinct under the comparer. */
  lemma AddPositionWellFormed(d: VehicleCurrentPosition, routeId: string, position: string)
    requires WellFormed(d)
    ensures WellFormed(AddPosition(d, routeId, position))
  {
    var r := AddPosition(d, routeId, position);
    if IndexOfKey(d.groups, routeId) < 0 {
      forall i, j | 0 <= i < j < |r.groups|
        ensures !EqualsIgnoreCase(r.groups[i].routeId, r.groups[j].routeId)
      {
        if j == |d.groups| {
          EqualsIgnoreCaseIsEquivalence(r.groups[i].routeId, routeId, routeId);
        }
      }
    }
  }

  /** What `AddPosition` does to every lookup: only the lists matching `routeId` grow, by `position`. */
  lemma AddPositionLookup(d: VehicleCurrentPosition, routeId: string, position: string, key: string)
    requires WellFormed(d)
    ensures var r := AddPosition(d, routeId, position);
      Lookup(r, key) ==
        if !EqualsIgnoreCase(routeId, key) then Lookup(d, key)
        else Some((if Lookup(d, key).Some? then Lookup(d, key).value else []) + [position])
  {
    var r := AddPosition(d, routeId, position);
    var i := IndexOfKey(d.groups, routeId);
    var k := IndexOfKey(d.groups, key);
    AddPositionWellFormed(d, routeId, position);
    if i < 0 {
      assert r.groups[..|d.groups|] == d.groups;
      if EqualsIgnoreCase(routeId, key) {
        EqualsIgnoreCaseIsEquivalence(routeId, key, key);
        UniqueKeyIndex(r, |d.groups|, key);
        assert Lookup(d, key) == None;
        assert r.groups[|d.groups|].positions == [] + [position];
      } else {
        if k >= 0 {
          UniqueKeyIndex(r, k, key);
        } else {
          forall j | 0 <= j < |r.groups| ensures !EqualsIgnoreCase(r.groups[j].routeId, key) {
          }
        }
      }
    } else {
      if EqualsIgnoreCase(routeId, key) {
        EqualsIgnoreCaseIsEquivalence(d.groups[i].routeId, routeId, key);
        UniqueKeyIndex(d, i, key);
        UniqueKeyIndex(r, i, key);
      } else if k >= 0 {
        UniqueKeyIndex(r, k, key);
      } else {
        forall j | 0 <= j < |r.groups| ensures !EqualsIgnoreCase(r.groups[j].routeId, key) {
          if j == i {
            EqualsIgnoreCaseIsEquivalence(r.groups[j].routeId, d.groups[j].routeId, key);
          }
        }
      }
    }
  }

  /** In a well-formed dictionary the entry matching `key` is the only one. */
  lemma UniqueKeyIndex(d: VehicleCurrentPosition, i: int, key: string)
    requires WellFormed(d) && 0 <= i < |d.groups| && EqualsIgnoreCase(d.groups[i].routeId, key)
    ensures IndexOfKey(d.groups, key) == i
  {
    var k := IndexOfKey(d.groups, key);
    if k != i {
      EqualsIgnoreCaseIsEquivalence(d.groups[k].routeId, key, d.groups[i].routeId);
      EqualsIgnoreCaseIsEquivalence(d.groups[i].routeId, key, d.groups[k].routeId);
      assert false;
    }
  }

  /**
   * The grouping is well formed, and the list under any key holds exactly the
   * positions whose route id matches the key ignoring case, in feed order.
   */
  lemma {:induction false} GroupPositionsSpec(entries: seq<(string, string)>, key: string)
    ensures WellFormed(GroupPositions(entries))
    ensures Lookup(GroupPositions(entries), key) ==
      if PositionsFor(entries, key) == [] then None else Some(PositionsFor(entries, key))
  {
    if entries != [] {
      var prefix := entries[..|entries| - 1];
      var last := entries[|entries| - 1];
      GroupPositionsSpec(prefix, key);
      AddPositionWellFormed(GroupPositions(prefix), last.0, last.1);
      AddPositionLookup(GroupPositions(prefix), last.0, last.1, key);
      if EqualsIgnoreCase(last.0, key) {
        assert PositionsFor(entries, key) == PositionsFor(prefix, key) + [last.1];
      } else {
        assert PositionsFor(entries, key) == PositionsFor(prefix, key);
      }
    }
  }
}
