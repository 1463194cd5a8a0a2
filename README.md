# Transport.WebApi caching layer and GTFS transforms, in Dafny

This project models the caching core of Transport.WebApi, a web API that serves
GTFS static data (CSV files from a zip archive) and GTFS realtime data (a
protobuf feed of vehicle positions). It also models the parts of the browser
client that read the API's route rows. The model covers:

- **`MemoryCacheService`.** The in-process cache as a Dafny `class`. Its fields
  are the backing memory cache (key to value, absolute expiry and size units),
  the metadata index, the hit and miss counters and the time of the last
  capacity eviction.
  - Each method is proved against a state-transition function of
    `CacheModel`: `Get`, `Set`, `Remove`, `GetOrSet`, `GetOrSetNullable`,
    `Contains`, `Clear` and `Sweep`.
  - The laws of those functions are proved in `CacheLaws`.
  - The diagnostics snapshot is computed by loops over the metadata. It is
    proved to hold the live entries, their summed size and the 20 most
    recently set entries, newest first.
- **The cache decorators.**
  - `CachedGtfsDataService` wraps the raw realtime feed and the lines of one
    static file.
  - `CachedGtfsService` wraps the vehicle-position dictionaries and route
    shapes.
  - Each is a class over a shared `MemoryCacheService`, with a counter of calls
    to the service it wraps. The counter shows when a read was served from the
    cache.
- **The key policy.** `CacheKeyGenerator` and the `route-info:` key are pure
  functions. They are proved injective by a parser that reads every key back.
- **`GtfsService`.** The transforms:
  - routes.txt rows into route records;
  - shapes.txt rows into direction and coordinate points for one route;
  - feed entities into the case-insensitive route-to-positions dictionary;
  - positions plus cached route information into enhanced positions.
- **`GtfsStaticDataOptions`.** The fifteen static files and their archive names.
- **`CacheOptions`.** The option defaults.
- **`CacheDiagnostics`.** The derived counters. Counters are 32-bit and wrap
  around.
- **`RouteClient`.** The client script's `parseRouteData`, the route filter of
  `loadAvailableRoutes` and `getRouteColor`.
  - ECMAScript's `trim` and `parseInt` are modelled.
  - `Array.prototype.sort`'s default comparison of integer ids is modelled as
    the comparison of their decimal strings.

**Modelling choices:**

- **Clock.** It is the parameter `now`, in whole seconds. Time spans are whole
  seconds.
- **External I/O.** The upstream feed bytes, the decoded feed entities, the
  lines of a static file and the number parser for coordinates are all
  parameters.
- **Cached values.** They are a tagged `Payload` datatype, one variant per
  shape the program caches. A typed read of the wrong shape behaves like the
  failed cast in `GetAsync`: the hit is counted and the result is null.
- **Eviction callbacks.** They run where the memory cache raises them, before
  `SetAsync` records its metadata.

**What the code does that a reader may not expect:**

- **No date stamp in keys.** Static and shape keys carry no calendar-day
  component. Keys rotate only through their TTLs.
- **Shapes use the short TTL.** Route shapes are cached with the realtime TTL,
  not the static one. This is stated by
  `CachedGtfsService.RouteShapeLivesForRealtimeTtl`.
- **Raw realtime bytes are cached.** The data-fetch decorator caches the raw
  realtime bytes as well as the static file lines.
- **Capacity.** The memory cache does not evict until the new entry fits. An
  entry that would exceed the size limit is rejected, and any entry under its
  key is removed. The rejection runs the eviction callback with reason
  `Capacity`, which stamps the compaction time.
- **Cached null is a miss.** A cached null value reads as a miss, so
  `GetOrSetAsync` fetches again (`CacheLaws.CachedNullRefetches`).
  `GetOrSetNullableAsync` wraps the value so that a cached null is a hit.

## Model

| member | source | states |
|---|---|---|
| Int32.Wrap | Services/Caching/MemoryCacheService.cs:15-16 | a counter value is the exact integer when in range, and always congruent to it modulo 2^32 |
| Int32.Increment | Services/Caching/MemoryCacheService.cs:36 | `Interlocked.Increment` adds one, and wraps from the largest 32-bit integer to the smallest |
| Int32.WrappedSumOfNonNegatives | Services/Caching/CacheDiagnostics.cs:10 | the sum of two non-negative counters is exact while it stays positive, and is negative once it overflows |
| Text.Split | Services/Gtfs/GtfsService.cs:171 | `string.Split(char)` always yields at least one piece |
| Text.SplitCount | Services/Gtfs/GtfsService.cs:171 | `Split` yields one piece more than there are separators |
| Text.SplitPiecesAreSeparatorFree | Services/Gtfs/GtfsService.cs:171 | no piece of `Split` contains the separator |
| Text.JoinSplit | Services/Gtfs/GtfsService.cs:171 | joining the pieces with the separator gives back the input |
| Text.SplitJoin | Services/Gtfs/GtfsService.cs:171 | splitting a join of separator-free fields gives back the fields |
| Text.SplitSeparatorFreePrefix | Services/Gtfs/GtfsService.cs:171 | a separator-free prefix extends the first piece of the rest |
| Text.TrimStart | Services/Gtfs/GtfsService.cs:175 | the result is a suffix of the input that starts with a kept character, and everything cut was a trimmed character |
| Text.TrimEnd | Services/Gtfs/GtfsService.cs:175 | the result is a prefix of the input that ends with a kept character, and everything cut was a trimmed character |
| Text.TrimIsSlice | Services/Gtfs/GtfsService.cs:175-176 | `Trim('"')` returns a slice of the input, with only trimmed characters cut on either side and kept characters at both ends |
| Text.TrimmedAlready | Services/Gtfs/GtfsService.cs:175-176 | `Trim` leaves unchanged a string that starts and ends with kept characters |
| Text.TrimKeepsOnlyInputCharacters | Services/Gtfs/GtfsService.cs:175-176 | `Trim` introduces no character absent from its input |
| Text.TrimIdempotent | Services/Gtfs/GtfsService.cs:175-176 | trimming twice is trimming once |
| Text.RemoveChar | Services/Gtfs/GtfsService.cs:198 | `Replace("\"", "")` leaves no quote and shortens the string by its number of quotes |
| Text.RemoveAbsentChar | Services/Gtfs/GtfsService.cs:198 | removing a character that does not occur changes nothing |
| Text.RemoveCharAppend | Services/Gtfs/GtfsService.cs:198 | removal distributes over concatenation |
| Text.IndexOfChar | Services/Gtfs/GtfsService.cs:208 | `IndexOf('_')` is -1 exactly when there is no underscore, and otherwise is the index of the first one |
| Text.Upper | Models/VehicleCurrentPosition.cs:5 | upper-casing maps each character and keeps the length |
| Text.IgnoreCaseIsCoarser | Models/VehicleCurrentPosition.cs:5 | ordinal-ignore-case equality is reflexive and equates strings that differ ("a" and "A") |
| Text.TryParseInt32 | Services/Gtfs/GtfsService.cs:101 | `int.TryParse` succeeds only on a string containing a digit |
| Text.ParseSignedInt32 | Services/Gtfs/GtfsService.cs:101 | reading an optionally signed run of digits succeeds only when there is a digit |
| Text.TryParseInt32RoundTrip | Services/Gtfs/GtfsService.cs:101 | every 32-bit integer's decimal string parses back to it |
| Text.SignedInt32RoundTrip | Services/Gtfs/GtfsService.cs:101 | the signed reader inverts decimal formatting on 32-bit integers |
| Text.TryParseInt32NeedsDigit | Services/Gtfs/GtfsService.cs:101 | a string with no digit never parses |
| CacheDiagnostics.ExpiryIsStrictAndPermanent | Services/Caching/CacheDiagnostics.cs:22 | an entry without expiry never expires; an entry is not expired at its expiry instant but is one second later; once expired it stays expired |
| CacheDiagnostics.TotalRequests | Services/Caching/CacheDiagnostics.cs:10 | the total is the 32-bit sum of hits and misses: exact when in range, congruent modulo 2^32 always |
| CacheDiagnostics.HitRatio | Services/Caching/CacheDiagnostics.cs:9 | the ratio is 0 without requests, otherwise hits divided by the total, and lies in [0, 1] for non-negative counters |
| CacheDiagnostics.WrappedSumOfNonNegativesWhenCountsAre | Services/Caching/CacheDiagnostics.cs:9-10 | with a positive wrapped total, the hits never exceed it |
| CacheDiagnostics.OverflowedCountersReportNoRatio | Services/Caching/CacheDiagnostics.cs:9-10 | with hits at the 32-bit maximum and one miss the total wraps to the minimum and the ratio reads 0 |
| GtfsModels.IndexOfKey | Models/VehicleCurrentPosition.cs:5 | the dictionary finds a key exactly when some stored key equals it ignoring case |
| GtfsModels.Lookup | Models/VehicleCurrentPosition.cs:5 | a lookup succeeds exactly when `ContainsKey` holds |
| GtfsModels.Keys | Models/VehicleCurrentPosition.cs:5 | the keys are the stored route ids, in insertion order |
| GtfsModels.Singleton | Services/Gtfs/GtfsService.cs:43 | a one-entry dictionary is well formed, has exactly that key and maps it to the given list |
| GtfsModels.EqualsIgnoreCaseIsEquivalence | Models/VehicleCurrentPosition.cs:5 | the dictionary's comparer is symmetric and transitive |
| GtfsModels.AddPositionWellFormed | Services/Gtfs/GtfsService.cs:258-263 | adding a position keeps the keys distinct ignoring case |
| GtfsModels.AddPositionLookup | Services/Gtfs/GtfsService.cs:258-263 | adding a position appends it to the list of the matching key, creating the list if absent, and changes no other key |
| GtfsModels.UniqueKeyIndex | Models/VehicleCurrentPosition.cs:5 | in a well-formed dictionary the entry matching a key is the one found |
| GtfsModels.GroupPositionsSpec | Services/Gtfs/GtfsService.cs:255-266 | grouping gives a well-formed dictionary whose list for a key is every position of a route equal to it ignoring case, in feed order |
| CacheModel.Cast | Services/Caching/MemoryCacheService.cs:41 | a cast keeps a value of the requested type and turns any other into null |
| CacheModel.EstimateObjectSize | Services/Caching/MemoryCacheService.cs:199-208 | byte arrays count their length, strings at least 100, anything else at least 1000 |
| CacheModel.EstimateIgnoresTypedCollections | Services/Caching/MemoryCacheService.cs:201-206 | string lists, position dictionaries and nullable wrappers are not `ICollection<object>` and estimate at 1000 |
| CacheModel.EstimateOfHugeCollection | Services/Caching/MemoryCacheService.cs:203 | the 32-bit product `Count * 100` wraps negative above 21474836 elements, so the estimate falls back to 1000 |
| CacheModel.SizeUnits | Services/Caching/MemoryCacheService.cs:70 | an entry's size is at least one unit, one unit below 2000 bytes, and otherwise the number of whole kilobytes |
| CacheModel.Empty | Services/Caching/MemoryCacheService.cs:14-17 | a new cache satisfies the invariant, with no entries, no metadata and zero counters |
| CacheModel.EvictionCallback | Services/Caching/MemoryCacheService.cs:82-96 | the callback drops the key's metadata, stamps the compaction time only for a capacity eviction and changes nothing else |
| CacheModel.RemoveEntryInv | Services/Caching/MemoryCacheService.cs:82-89 | evicting an entry keeps the invariant and removes both its value and its metadata |
| CacheModel.StoreValueInv | Services/Caching/MemoryCacheService.cs:98 | storing a value keeps the invariant |
| CacheModel.InsertBySetAt | Services/Caching/MemoryCacheService.cs:186 | insertion adds exactly the new entry to the list's multiset |
| CacheModel.InsertBySetAtKeepsSorted | Services/Caching/MemoryCacheService.cs:186 | insertion keeps a list sorted newest first |
| CacheModel.SortBySetAtDesc | Services/Caching/MemoryCacheService.cs:186 | `OrderByDescending(SetAt)` returns a permutation of its input sorted newest first |
| CacheModel.TopRecentSelects | Services/Caching/MemoryCacheService.cs:186 | taking 20 of the sorted entries yields min(20, count) distinct entries of the metadata, newest first, none older than an entry left out |
| CacheModel.PrefixSelects | Services/Caching/MemoryCacheService.cs:186 | any prefix of the right length of a sorted permutation of the entries is such a selection |
| CacheModel.LeftOutIsOlder | Services/Caching/MemoryCacheService.cs:186 | an entry beyond the prefix is no newer than any entry in it |
| CacheModel.SortedEntriesDistinct | Services/Caching/MemoryCacheService.cs:178 | entries of distinct keys stay pairwise distinct after sorting |
| CacheModel.EveryKeyListed | Services/Caching/MemoryCacheService.cs:178 | enumerating the metadata values lists the entry of every key |
| CacheLaws.GetCountsHitOrMiss | Services/Caching/MemoryCacheService.cs:30-57 | a live key counts a hit and returns its value cast to the requested type; otherwise a miss is counted, null returned and an expired entry purged with its metadata |
| CacheLaws.ContainsKeyLeavesCounters | Services/Caching/MemoryCacheService.cs:191 | `ContainsKey` answers liveness and touches neither counter |
| CacheLaws.SetRecordsMetadata | Services/Caching/MemoryCacheService.cs:59-117 | `SetAsync` fails exactly for a non-positive TTL; otherwise it records the key's metadata (set time, expiry, estimated size, type) and leaves counters and other keys' values alone |
| CacheLaws.SetKeepsInvariant | Services/Caching/MemoryCacheService.cs:59-117 | a successful set keeps the store's invariant |
| CacheLaws.SetThenGet | Services/Caching/MemoryCacheService.cs:59-100 | after a set that fits, the key is live until `now + ttl` and reads return the value exactly until then |
| CacheLaws.SetOverCapacity | Services/Caching/MemoryCacheService.cs:82-100 | a set that does not fit evicts the key, stamps the compaction time and still records metadata |
| CacheLaws.SetNeverExceedsCapacity | Services/Caching/MemoryCacheService.cs:70 | the sizes of stored entries never exceed the configured limit |
| CacheLaws.RemoveForgetsKey | Services/Caching/MemoryCacheService.cs:119-133 | removal deletes only the key's value (and its metadata through the callback), and is a no-op for an absent key |
| CacheLaws.ClearKeepsValues | Services/Caching/MemoryCacheService.cs:193-197 | `ClearCache` empties only the metadata; reads and `ContainsKey` answer as before |
| CacheLaws.EvictionStampsOnlyCapacity | Services/Caching/MemoryCacheService.cs:82-89 | the compaction time changes only for a capacity eviction, and always then |
| CacheLaws.GetOrSetHit | Services/Caching/MemoryCacheService.cs:135-141 | a live non-null value of the requested type is returned without fetching |
| CacheLaws.GetOrSetMiss | Services/Caching/MemoryCacheService.cs:143-145 | on a miss the factory runs; its failure propagates uncached, and its value is set and returned |
| CacheLaws.GetOrSetTwice | Services/Caching/MemoryCacheService.cs:135-146 | a second call within the TTL returns the first call's value without fetching |
| CacheLaws.RepeatReadIsCached | Services/Caching/MemoryCacheService.cs:135-146 | within the TTL a repeated read returns the first fetch even if the source has changed |
| CacheLaws.GetOrSetTouchesOnlyItsKey | Services/Caching/MemoryCacheService.cs:135-146 | a call changes the value, expiry and metadata of no other key |
| CacheLaws.CachedNullRefetches | Services/Caching/MemoryCacheService.cs:137-143 | a live cached null counts as a hit yet the factory runs again |
| CacheLaws.NullableCachesNull | Services/Caching/MemoryCacheService.cs:148-160 | a null result is wrapped and cached, so the next call within the TTL returns null without fetching |
| CacheLaws.NullableReturnsCachedValue | Services/Caching/MemoryCacheService.cs:150-153 | a live wrapper returns its inner value with one hit and no fetch |
| CacheLaws.SweepRemovesExactlyExpired | Services/Caching/MemoryCacheService.cs:168-176 | the sweep keeps exactly the unexpired metadata entries and changes nothing else |
| CacheLaws.ExpiryBoundaryMismatch | Services/Caching/CacheDiagnostics.cs:22 | at the instant `now + ttl` the value is gone but its metadata survives the sweep |
| CacheLaws.ReadsKeepInvariant | Services/Caching/MemoryCacheService.cs:30-57 | reads keep the store's invariant |
| CacheLaws.GetOrSetKeepsInvariant | Services/Caching/MemoryCacheService.cs:135-160 | both get-or-set operations keep the store's invariant |
| MemoryCacheService.MemoryCacheService.constructor | Services/Caching/MemoryCacheService.cs:14-27 | a new service holds the empty cache |
| MemoryCacheService.MemoryCacheService.PostEvictionCallback | Services/Caching/MemoryCacheService.cs:82-96 | the callback updates the state as `EvictionCallback` says |
| MemoryCacheService.MemoryCacheService.Evict | Services/Caching/MemoryCacheService.cs:82-89 | the memory cache's eviction removes the entry and runs the callback |
| MemoryCacheService.MemoryCacheService.TryGetValue | Services/Caching/MemoryCacheService.cs:34 | the lookup returns a live value and purges an expired one |
| MemoryCacheService.MemoryCacheService.StoreValue | Services/Caching/MemoryCacheService.cs:98 | `IMemoryCache.Set` stores the entry when it fits and rejects it otherwise |
| MemoryCacheService.MemoryCacheService.GetAsync | Services/Caching/MemoryCacheService.cs:30-57 | the new state and the result are those of `Get` |
| MemoryCacheService.MemoryCacheService.SetAsync | Services/Caching/MemoryCacheService.cs:59-117 | a rejected TTL fails and changes nothing; otherwise the new state is that of `Set` |
| MemoryCacheService.MemoryCacheService.RemoveAsync | Services/Caching/MemoryCacheService.cs:119-133 | the new state is that of `Remove` |
| MemoryCacheService.MemoryCacheService.GetOrSetAsync | Services/Caching/MemoryCacheService.cs:135-146 | the result, the fetch flag and the new state are those of `GetOrSet` |
| MemoryCacheService.MemoryCacheService.GetOrSetNullableAsync | Services/Caching/MemoryCacheService.cs:148-160 | the result, the fetch flag and the new state are those of `GetOrSetNullable` |
| MemoryCacheService.MemoryCacheService.ContainsKey | Services/Caching/MemoryCacheService.cs:191 | the answer and the new state are those of `Contains` |
| MemoryCacheService.MemoryCacheService.ClearCache | Services/Caching/MemoryCacheService.cs:193-197 | the new state is that of `Clear` |
| MemoryCacheService.MemoryCacheService.RemoveExpiredMetadata | Services/Caching/MemoryCacheService.cs:167-176 | the loop leaves the state of `Sweep`, with no expired metadata left |
| MemoryCacheService.MemoryCacheService.GetDiagnostics | Services/Caching/MemoryCacheService.cs:165-189 | after the sweep the snapshot counts the live metadata, sums their sizes, copies the counters and compaction time, and selects the 20 most recent entries newest first |
| MemoryCacheService.EnumerateOneMore | Services/Caching/MemoryCacheService.cs:178 | one more metadata value extends an enumeration of the values seen |
| MemoryCacheService.SumSizesOfEnumeration | Services/Caching/MemoryCacheService.cs:183 | summing the sizes of an enumeration of the values sums the map |
| MemoryCacheService.ActiveEntries | Services/Caching/MemoryCacheService.cs:178 | the loop lists every metadata value exactly once |
| MemoryCacheService.EstimatedUsage | Services/Caching/MemoryCacheService.cs:183 | the loop sums the listed entries' estimated sizes |
| GtfsStaticDataOptions.Ordinal | Options/GtfsStaticDataOptions.cs:5-37 | each member's underlying value is below 15 |
| GtfsStaticDataOptions.FromValue | Options/GtfsStaticDataOptions.cs:5-37 | an underlying value names a member exactly when it is in 0..14, and it names the member with that ordinal |
| GtfsStaticDataOptions.GetFileNameOfValue | Options/GtfsStaticDataOptions.cs:41-62 | `GetFileName` succeeds exactly on declared values and otherwise throws `ArgumentOutOfRangeException` carrying the value |
| GtfsStaticDataOptions.FileNameRoundTrip | Options/GtfsStaticDataOptions.cs:43-59 | every member's archive name reads back as that member |
| GtfsStaticDataOptions.FileNameInjective | Options/GtfsStaticDataOptions.cs:43-59 | distinct members have distinct archive names |
| GtfsStaticDataOptions.GetFileNameTotal | Options/GtfsStaticDataOptions.cs:43-60 | every declared value reaches a named arm of the switch |
| GtfsStaticDataOptions.FileNamesAreTxt | Options/GtfsStaticDataOptions.cs:45-59 | every archive name is a snake_case stem followed by ".txt" |
| GtfsStaticDataOptions.MemberNameRoundTrip | Options/GtfsStaticDataOptions.cs:5-37 | every member's name reads back as that member and starts with a capital |
| GtfsStaticDataOptions.MemberNameInjective | Options/GtfsStaticDataOptions.cs:5-37 | distinct members have distinct names |
| CacheKeys.GetCurrentVehiclesPositionsByRouteKey | Services/Caching/CacheKeyGenerator.cs:13-14 | the key is the route prefix followed directly by the route id |
| CacheKeys.GetStaticDataKey | Services/Caching/CacheKeyGenerator.cs:18-19 | the key is the static prefix followed by the member's name, not its file name |
| CacheKeys.GetRouteShapeKey | Services/Caching/CacheKeyGenerator.cs:22-23 | the key is the shape prefix followed by the route id |
| CacheKeys.GetRouteInfoKey | Services/Gtfs/GtfsService.cs:48 | the key is "route-info:" followed by the route id |
| CacheKeys.ParseKeyOf | Services/Caching/CacheKeyGenerator.cs:9-23 | every key the program builds reads back as what it was built from |
| CacheKeys.ParseRouteKey | Services/Caching/CacheKeyGenerator.cs:13-14 | a per-route positions key reads back as its route |
| CacheKeys.ParseStaticKey | Services/Caching/CacheKeyGenerator.cs:18-19 | a static file key reads back as its file |
| CacheKeys.ParseShapeKey | Services/Caching/CacheKeyGenerator.cs:22-23 | a shape key reads back as its route |
| CacheKeys.ParseRouteInfoKey | Services/Gtfs/GtfsService.cs:48 | a route-information key reads back as its route |
| CacheKeys.KeyOfInjective | Services/Caching/CacheKeyGenerator.cs:9-23 | different cached things never share a key |
| CacheOptions.Default | Options/CacheOptions.cs:7-20 | the defaults are within the declared ranges, the realtime TTL is shorter than the static one, the health check is on and logging off |
| CacheOptions.ValidRealtimeNeverExceedsStatic | Options/CacheOptions.cs:7-11 | within the declared ranges the realtime TTL never exceeds the static TTL |
| CachedGtfsDataService.CachedGtfsDataService.constructor | Services/Caching/CachedGtfsDataService.cs:14-24 | the decorator starts over the given cache and options with no source calls |
| CachedGtfsDataService.CachedGtfsDataService.GetRealtimeDataAsync | Services/Caching/CachedGtfsDataService.cs:27-40 | the result and new cache are those of the realtime get-or-set, and the source is called exactly when it fetched |
| CachedGtfsDataService.CachedGtfsDataService.GetStaticFileDataAsync | Services/Caching/CachedGtfsDataService.cs:44-57 | the result and new cache are those of the static get-or-set, and the source is called exactly when it fetched |
| CachedGtfsDataService.RealtimeReadYieldsBytes | Services/Caching/CachedGtfsDataService.cs:27-40 | a realtime read yields bytes, fetched bytes are the source's, and it fetches exactly when no live bytes are cached |
| CachedGtfsDataService.RealtimeRepeatIsCached | Services/Caching/CachedGtfsDataService.cs:27-40 | within the realtime TTL a second read returns the first bytes without calling the source |
| CachedGtfsDataService.RealtimeFailureCachesNothing | Services/Caching/CachedGtfsDataService.cs:31-39 | a source failure propagates and nothing is stored under the feed key |
| CachedGtfsDataService.EmptyStaticFileIsCached | Services/Caching/CachedGtfsDataService.cs:44-57 | an empty file is cached like any other, so later reads within the TTL see it empty |
| CachedGtfsDataService.StaticFilesAreCachedApart | Services/Caching/CachedGtfsDataService.cs:46 | reading one static file leaves every other file's cache entry unchanged |
| GtfsService.GetAllRoutes | Services/Gtfs/GtfsService.cs:163-186 | an empty routes file fails with "No route data available."; otherwise there is one record per line, read from that line |
| GtfsService.TrimQuoted | Services/Gtfs/GtfsService.cs:175-176 | trimming quotes off a quoted name gives back the name |
| GtfsService.RouteRowRoundTrip | Services/Gtfs/GtfsService.cs:168-180 | a routes.txt row written from comma-free fields with quoted names reads back as its id, names and type |
| GtfsService.RouteOfJoinedFields | Services/Gtfs/GtfsService.cs:171-177 | a six-field row gives columns 0, 2, 3 and 5, with quotes trimmed off the names |
| GtfsService.QuotedCommaShiftsColumns | Services/Gtfs/GtfsService.cs:171-177 | a comma inside a quoted short name shifts the columns: the long name reads as its second half and the type as the description |
| GtfsService.FirstIndexWithId | Services/Gtfs/GtfsService.cs:57 | `FirstOrDefault` finds the first route with the id, or none when no route has it |
| GtfsService.ShapeRowsOf | Services/Gtfs/GtfsService.cs:193-200 | the filter keeps exactly the rows whose unquoted first field starts with the route id and an underscore |
| GtfsService.ShapeRowsOfAppend | Services/Gtfs/GtfsService.cs:193-200 | the filter keeps row order across concatenation |
| GtfsService.GetRouteShape | Services/Gtfs/GtfsService.cs:188-229 | an empty shapes file fails with the route's message; otherwise there is one point per kept row, in order |
| GtfsService.ShapeFilterSeparatesRoutes | Services/Gtfs/GtfsService.cs:196-199 | for route ids without underscores no row belongs to two routes |
| GtfsService.FirstUnderscoreEndsRouteId | Services/Gtfs/GtfsService.cs:208 | in a kept row of an underscore-free route id the first underscore follows the id |
| GtfsService.ShapeDirectionOfRoute | Services/Gtfs/GtfsService.cs:205-214 | the direction is "outbound" for '1', "inbound" for '2', otherwise empty, read after the route id's underscore |
| GtfsService.UnderscoreInRouteIdHidesDirection | Services/Gtfs/GtfsService.cs:199-213 | for a route id containing "_1", every kept shape reads as outbound whatever its own direction digit |
| GtfsService.GetAllStaticFileData | Services/Gtfs/GtfsService.cs:150-161 | an empty file fails with the file's member name in the message; otherwise the lines are returned unchanged |
| GtfsService.VehiclesOf | Services/Gtfs/GtfsService.cs:246-249 | there are no vehicles exactly when no entity carries one |
| GtfsService.PositionsGroupByRoute | Services/Gtfs/GtfsService.cs:243-267 | the positions read fails exactly for a failed feed, no vehicles, or an incomplete vehicle; otherwise each route's list is its positions in feed order |
| GtfsService.PositionsByRoute | Services/Gtfs/GtfsService.cs:34-44 | the per-route result is a well-formed one-key dictionary under the requested id |
| GtfsService.ExactMatchesOfDistinctKeys | Services/Gtfs/GtfsService.cs:38-41 | the case-sensitive filter collects the list of the exactly equal key, or nothing |
| GtfsService.ByRouteMatchesExactCase | Services/Gtfs/GtfsService.cs:38-43 | the per-route list is the stored list only when the id matches its key exactly |
| GtfsService.ByRouteIsCaseSensitive | Services/Gtfs/GtfsService.cs:38-39 | a route stored as "A1" and requested as "a1" is contained yet yields an empty list |
| GtfsService.VehiclesFrom | Services/Gtfs/GtfsService.cs:79-94 | at most one vehicle per position string |
| GtfsService.VehicleOfFormattedPosition | Services/Gtfs/GtfsService.cs:82-92 | a position written as "lat,lng" reads back as those coordinates |
| GtfsService.VehiclesFromAllParsable | Services/Gtfs/GtfsService.cs:80-94 | when every position parses there is one vehicle per position, in order |
| GtfsService.EnhanceRoute | Services/Gtfs/GtfsService.cs:96-103 | without route info the short name is the id, long name empty and type 3; with it both names are the record's names with every quote removed, the type is the record's type when it parses as a 32-bit integer and 3 when it does not, and a type other than 3 was parsed from the record |
| GtfsService.EmptyShortNameIsKept | Services/Gtfs/GtfsService.cs:99 | an empty short name is kept, not replaced by the route id |
| GtfsService.RouteInfoHitSkipsRoutesFile | Services/Gtfs/GtfsService.cs:46-54 | a cached route is returned without reading the routes file |
| GtfsService.RouteInfoMissCachesNothingUnfound | Services/Gtfs/GtfsService.cs:56-64 | on a miss an empty routes file fails, and an absent route returns none and caches nothing |
| GtfsService.RouteInfoMissCachesFoundRoute | Services/Gtfs/GtfsService.cs:56-62 | on a miss the first route with the id is returned and cached for the static TTL |
| GtfsService.EnhanceGroupsStep | Services/Gtfs/GtfsService.cs:72-104 | each route of the loop appends its enhanced entry or stops with the lookup's failure |
| GtfsService.EnhanceGroupsStopsAtFailure | Services/Gtfs/GtfsService.cs:72-77 | a failed route lookup ends the whole operation with that failure |
| GtfsService.EnhanceGroupsListsEveryRoute | Services/Gtfs/GtfsService.cs:67-107 | a successful result has one entry per route in dictionary order, with that route's id and vehicles |
| GtfsService.EnhanceGroupsFailsWithoutRoutes | Services/Gtfs/GtfsService.cs:77 | an uncached route with an empty routes file fails with "No route data available." |
| GtfsService.EnhancedViewsAgree | Services/Gtfs/GtfsService.cs:109-146 | the per-route enhanced view has the same vehicles as that route's entry in the full view |
| GtfsService.GtfsService.constructor | Services/Gtfs/GtfsService.cs:16-26 | the service keeps the given cache and options |
| GtfsService.GtfsService.GetPositions | Services/Gtfs/GtfsService.cs:243-267 | the grouping loop returns the dictionary `PositionsOf` describes |
| GtfsService.GtfsService.GetAllVechiclesCurrentPositions | Services/Gtfs/GtfsService.cs:29-32 | returns the grouped positions |
| GtfsService.GtfsService.GetCurrentVehiclesPositionsByRoute | Services/Gtfs/GtfsService.cs:34-44 | returns the one-route dictionary of exactly matching positions |
| GtfsService.GtfsService.GetRouteInfo | Services/Gtfs/GtfsService.cs:46-65 | the result and new cache are those of the route-information read |
| GtfsService.GtfsService.CollectVehicles | Services/Gtfs/GtfsService.cs:79-94 | the loop collects the vehicles `VehiclesFrom` describes |
| GtfsService.GtfsService.GetAllVehiclesCurrentPositionsEnhanced | Services/Gtfs/GtfsService.cs:67-107 | the result and new cache are those of the enhanced view over every route |
| GtfsService.GtfsService.GetCurrentVehiclesPositionsByRouteEnhanced | Services/Gtfs/GtfsService.cs:109-146 | no entry and no lookup for an absent route; otherwise that route's enhanced entry |
| CachedGtfsService.CachedGtfsService.constructor | Services/Caching/CachedGtfsService.cs:15-25 | the decorator starts over the given cache and options with no base calls |
| CachedGtfsService.CachedGtfsService.GetAllVechiclesCurrentPositions | Services/Caching/CachedGtfsService.cs:28-39 | the result and new cache are those of the all-positions get-or-set; the base service runs exactly when it fetched |
| CachedGtfsService.CachedGtfsService.GetCurrentVehiclesPositionsByRoute | Services/Caching/CachedGtfsService.cs:40-52 | the same, under the route's own key |
| CachedGtfsService.CachedGtfsService.GetAllStaticFileData | Services/Caching/CachedGtfsService.cs:56-60 | static reads pass straight through to the base service, which runs every time |
| CachedGtfsService.CachedGtfsService.GetRouteShape | Services/Caching/CachedGtfsService.cs:62-75 | the result and new cache are those of the shape get-or-set; the base service runs exactly when it fetched |
| CachedGtfsService.AllPositionsReadYieldsPositions | Services/Caching/CachedGtfsService.cs:28-39 | a read yields a positions dictionary; a fetched one is the grouped feed; a feed failure propagates; it fetches exactly when no live dictionary is cached |
| CachedGtfsService.AllPositionsRepeatIsCached | Services/Caching/CachedGtfsService.cs:28-39 | within the realtime TTL a second read returns the first dictionary without reading the feed |
| CachedGtfsService.AllPositionsFailureCachesNothing | Services/Caching/CachedGtfsService.cs:28-39 | a failed read stores nothing under the all-vehicles key |
| CachedGtfsService.RoutePositionsAreCachedApart | Services/Caching/CachedGtfsService.cs:40-52 | a per-route read leaves other routes' entries and the all-vehicles entry unchanged |
| CachedGtfsService.RoutePositionsReadIsSingleRoute | Services/Caching/CachedGtfsService.cs:40-52 | a fetched per-route value is the one-key dictionary of that route |
| CachedGtfsService.RouteShapeLivesForRealtimeTtl | Services/Caching/CachedGtfsService.cs:62-75 | a fetched shape stays cached exactly for the realtime TTL |
| RouteClient.TrimAll | WebClients/simple-client/script.js:46 | each part is `trim`med, one for one |
| RouteClient.ParseRouteData | WebClients/simple-client/script.js:35-59 | the scanning loop returns the route `ParseRow` describes |
| RouteClient.ScanCounts | WebClients/simple-client/script.js:40-51 | the scan ends inside quotes exactly for an odd number of quotes, and cuts one part per comma outside quotes |
| RouteClient.StepCounts | WebClients/simple-client/script.js:43-50 | one character toggles the quote state exactly when it is a quote, and cuts a part exactly when it is an unquoted comma |
| RouteClient.PartCount | WebClients/simple-client/script.js:40-52 | there is one part more than there are commas outside quotes |
| RouteClient.ScanKeepsNoQuote | WebClients/simple-client/script.js:43-50 | quotes never reach a part |
| RouteClient.PartsHaveNoQuotes | WebClients/simple-client/script.js:43-52 | every part is quote-free and already trimmed |
| RouteClient.QuoteRemovalIsIdentity | WebClients/simple-client/script.js:55-56 | the id and name are parts 2 and 3 as they stand, or empty when those are missing or empty |
| RouteClient.ScanAppend | WebClients/simple-client/script.js:40-51 | scanning a concatenation is scanning its halves in turn |
| RouteClient.ScanLiteral | WebClients/simple-client/script.js:48-50 | a quote-free text with no comma outside quotes extends the current part |
| RouteClient.ScanQuoted | WebClients/simple-client/script.js:43-50 | a quoted quote-free field extends the current part by its text, commas included |
| RouteClient.ScanRow | WebClients/simple-client/script.js:40-52 | scanning a row of writable fields ends with every field but the last as a part, outside quotes |
| RouteClient.RowRoundTrip | WebClients/simple-client/script.js:40-52 | the untrimmed parts of a row of writable fields are those fields |
| RouteClient.LeadingRun | WebClients/simple-client/script.js:57 | the run is the longest prefix of matching characters |
| RouteClient.LeadingDigits | WebClients/simple-client/script.js:57 | the digit run of digits followed by a non-digit is those digits |
| RouteClient.MagnitudeOfDigits | WebClients/simple-client/script.js:57 | `parseInt` reads the value of a leading digit run not starting a hex prefix |
| RouteClient.MagnitudeOfDecimal | WebClients/simple-client/script.js:81 | the magnitude read from a decimal string is its number |
| RouteClient.ParseIntReadsDecimal | WebClients/simple-client/script.js:81 | `parseInt` of a decimal string, with any non-digit tail, is that number |
| RouteClient.ParseIntNeedsDigit | WebClients/simple-client/script.js:81-82 | `parseInt` of a string without digits is NaN |
| RouteClient.SignedNeedsDigit | WebClients/simple-client/script.js:81-82 | after the sign, no digit means NaN |
| RouteClient.MapKeys | WebClients/simple-client/script.js:83 | one key per map entry |
| RouteClient.MapSet | WebClients/simple-client/script.js:83 | `Map.set` keeps the size or grows it by one |
| RouteClient.MapSetKeys | WebClients/simple-client/script.js:83 | `Map.set` keeps key order and appends a new key at the end |
| RouteClient.MapSetGet | WebClients/simple-client/script.js:83 | after `Map.set` the key reads the new value and every other key is unchanged |
| RouteClient.MapSetKeepsKeysDistinct | WebClients/simple-client/script.js:83 | `Map.set` keeps keys distinct |
| RouteClient.AdmitStep | WebClients/simple-client/script.js:78-95 | each row is set under its parsed id when accepted and skipped otherwise |
| RouteClient.ParsedRows | WebClients/simple-client/script.js:78-79 | each row is parsed, one for one |
| RouteClient.LoadAvailableRoutes | WebClients/simple-client/script.js:62-109 | the loop builds the map `AvailableRoutes` describes |
| RouteClient.AdmitKeepsLastRoute | WebClients/simple-client/script.js:78-95 | the map's keys are distinct and each id maps to the last accepted route with that id |
| RouteClient.AdmitOnlyAccepted | WebClients/simple-client/script.js:80-83 | every mapped route was accepted, was among the rows, and its id parses to its key |
| RouteClient.AdmitFindsLastRoute | WebClients/simple-client/script.js:83 | a later accepted route overrides earlier ones with the same id |
| RouteClient.AdmitSkipsRejected | WebClients/simple-client/script.js:80-82 | a rejected route changes nothing |
| RouteClient.DecimalIdIsAccepted | WebClients/simple-client/script.js:80-83 | a named route with a decimal id is accepted under that number |
| RouteClient.NonNumericIdIsRejected | WebClients/simple-client/script.js:81-82 | an id without digits is rejected |
| RouteClient.JsNumberString | WebClients/simple-client/script.js:29 | the string of a number is never empty |
| RouteClient.JsNumberStringSign | WebClients/simple-client/script.js:29 | the string starts with '-' exactly for negative numbers |
| RouteClient.JsNumberStringInjective | WebClients/simple-client/script.js:29 | different integers have different strings |
| RouteClient.StrLessIrreflexive | WebClients/simple-client/script.js:29 | the default sort's string order is irreflexive |
| RouteClient.StrLessTransitive | WebClients/simple-client/script.js:29 | the string order is transitive |
| RouteClient.StrLessTotal | WebClients/simple-client/script.js:29 | the string order is total on different strings |
| RouteClient.BeforeIsStrictTotalOrder | WebClients/simple-client/script.js:29 | comparing ids by their strings is a strict total order |
| RouteClient.Insert | WebClients/simple-client/script.js:29 | insertion adds exactly the new id |
| RouteClient.SortByString | WebClients/simple-client/script.js:29 | the sort is a permutation of the keys |
| RouteClient.InsertKeepsSorted | WebClients/simple-client/script.js:29 | insertion keeps the ids in string order |
| RouteClient.SortIsSorted | WebClients/simple-client/script.js:29 | the sorted distinct keys are in string order |
| RouteClient.SortedHeadIsLeast | WebClients/simple-client/script.js:29 | the first sorted id comes before every other |
| RouteClient.CountBefore | WebClients/simple-client/script.js:29-30 | the rank of an id is at most the number of keys |
| RouteClient.CountBeforeInsert | WebClients/simple-client/script.js:29 | insertion raises a rank exactly when the new id comes first |
| RouteClient.CountBeforeSort | WebClients/simple-client/script.js:29 | sorting keeps every rank |
| RouteClient.SortedIndexIsCount | WebClients/simple-client/script.js:29-30 | in sorted keys an id's index is its rank |
| RouteClient.IndexOfId | WebClients/simple-client/script.js:30 | `indexOf` is -1 exactly for an absent id, and otherwise its first index |
| RouteClient.Remainder | WebClients/simple-client/script.js:31 | the remainder is below the divisor and leaves a smaller dividend unchanged |
| RouteClient.JsRemainder | WebClients/simple-client/script.js:31 | JavaScript's `%` keeps the dividend's sign: in range for non-negatives, and -1 stays -1 |
| RouteClient.ColorIsRank | WebClients/simple-client/script.js:28-32 | a tracked route's colour is the palette entry at its rank modulo ten |
| RouteClient.UntrackedHasNoColor | WebClients/simple-client/script.js:28-32 | an untracked route gets no colour (`undefined`) |
| RouteClient.ColorAtSortedIndex | WebClients/simple-client/script.js:28-32 | the colour is the entry at the sorted index modulo ten, and that very entry below ten |
| RouteClient.PaletteIsDistinct | WebClients/simple-client/script.js:26 | the ten palette colours are different |
| RouteClient.ColorsDifferUpToTen | WebClients/simple-client/script.js:26-32 | with at most ten tracked routes no two share a colour |

## Left out

- Concurrency is not modelled: the concurrent metadata dictionary, `Interlocked` counters and asynchronous tasks run one call at a time. Two callers missing on the same key each fetch and the last set wins; this race, and eviction callbacks raised on another thread, are not modelled.
- Time is whole seconds passed as `now`, one reading per call; `DateTime.UtcNow` being read twice in `SetAsync` (lines 76-77) and sub-second `TimeSpan`s are not modelled.
- The memory cache's background compaction (which entries it picks, and `CompactionPercentage`) is an environment step, `Evict`, with any victim; only the size limit and the rejection of an entry that does not fit are modelled.
- The `[Range]` attributes of `CacheOptions` are never validated by the program; `CacheOptions.Valid` records them but no operation requires them.
- `CacheOptions` declares `RealtimeCacheSeconds` and `StaticCacheHours` but no `RealtimeCacheDuration` or `StaticCacheDuration`. `CachedGtfsDataService` reads the undeclared `RealtimeCacheDuration` (Services/Caching/CachedGtfsDataService.cs:38) and `StaticCacheDuration` (line 55), and `GtfsService.GetRouteInfo` reads the undeclared `StaticCacheDuration` (Services/Gtfs/GtfsService.cs:61). The model reads these as the realtime TTL and the static TTL, so `GtfsService.GetRouteInfo` caches a found route for the static TTL. `CachedGtfsService` passes the declared `TimeSpan` `RealtimeCacheSeconds` (Services/Caching/CachedGtfsService.cs:37, 50, 73), which the model reads as the realtime TTL in whole seconds.
- Enum-to-string conversion prints the member name (`GtfsStaticDataOptions.MemberName`); the `EnumMember` attribute values are not used by the program and are not modelled.
- Logging, the `LogCacheOperations` flag's messages and the exception logging around `GetAsync` and `SetAsync` are left out; they change no state.
- Protobuf decoding and the realtime JSON formatter (`GetAllRealtimeData`) are left out; the decoded feed entities are a parameter.
- The decorators `CachedGtfsService` and `CachedGtfsDataService` are declared in namespace `Transport.WebApi.Services`, where the names `GtfsService`, `GtfsDataService`, `IGtfsService` and `IGtfsDataService` resolve to the older classes in Services/GtfsService.cs, Services/GtfsDataService.cs and Services/IGtfsService.cs; those lack `GetAllVechiclesCurrentPositions`, `GetRouteShape`, `GetAllStaticFileData` and `GetStaticFileDataAsync`, so the decorators do not compile as written. The model reads the wrapped services as the classes of Services/Gtfs/GtfsService.cs and Services/Gtfs/GtfsDataService.cs, whose methods the decorators call.
- `Text.TryParseInt32`: the model assumes the invariant culture (ASCII `-` and `+` as the signs) and does not model the trailing `'\0'` characters that `int.TryParse` with `NumberStyles.Integer` also accepts.
- `GtfsDataService`, which downloads and unzips the feed, is not part of this model; the bytes and file lines it returns are parameters.
- `double.TryParse` of coordinates is the parameter `parse`; floating point is not modelled. `VehiclePositionData.LastUpdate` is the call's `now`.
- `GtfsService.FormatPosition`: the position text `"{Latitude},{Longitude}"` (Services/Gtfs/GtfsService.cs:262) formats the float coordinates in the current culture; the model assumes the invariant culture, so each coordinate's text has no comma. In a culture with a decimal comma the later `Split(',')` would read other fields; that is not modelled.
- `string.StartsWith(string)` in the shape filter is culture-sensitive in .NET; the model compares ordinally.
- `StringComparer.OrdinalIgnoreCase` is modelled with ASCII upper-casing only.
- `GetRouteShape` in `CachedGtfsService` is declared to return `List<string>` but returns the shape points of the base service; the model caches the shape points.
- In the client, the page (DOM updates, the select options with their emoji and labels, the add button, status messages), `fetch` and its errors, Leaflet markers and every other function of the script are left out.
- `RouteClient.JsNumberString`: JavaScript numbers are modelled as integers; precision beyond 2^53, `-0` and non-integer ids are not modelled.
- `RouteClient.SortByString`: `Array.prototype.sort` is modelled as an insertion sort; for distinct ids any correct sort gives the same order, which is what `getRouteColor` relies on.
- The elements of `routesData` are assumed to be strings; other JSON values are not modelled.
