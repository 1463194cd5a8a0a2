/**
 * The state of the in-process cache and what each of its operations does to
 * it, as functions: the backing memory cache (a size-limited map from key to
 * value, absolute expiry and size units), the metadata index, the hit and
 * miss counters and the time of the last capacity eviction. The clock is the
 * parameter `now`, in whole seconds; eviction callbacks run at the point the
 * memory cache raises them.
 */
module CacheModel {
  import opened Wrappers
  import opened Int32
  import opened Errors
  import opened CacheDiagnostics
  import opened GtfsModels

  // ---------------------------------------------------------------------------
  // Values and their runtime types.
  // ---------------------------------------------------------------------------

  /** The runtime types the program stores (the `T` of each call). */
  datatype Kind =
    | ByteArrayKind           // byte[]
    | StringKind              // string
    | ObjectCollectionKind    // an ICollection<object>, such as List<object>
    | StringListKind          // List<string>
    | PositionsKind           // VehicleCurrentPosition
    | RouteKind               // JsonSerializedRoutes
    | RouteListKind           // List<JsonSerializedRoutes>
    | ShapeListKind           // List<JsonSerializedRouteShapes>
    | WrapperKind(of: Kind)   // NullableWrapper<T>

  /** A stored value; `Null` is the null reference. */
  datatype Payload =
    | Null
    | ByteArray(bytes: seq<bv8>)
    | Text(text: string)
    | ObjectCollection(count: nat)
    | StringList(lines: seq<string>)
    | Positions(positions: VehicleCurrentPosition)
    | Route(route: RouteRecord)
    | RouteList(routes: seq<RouteRecord>)
    | ShapeList(points: seq<RouteShapePoint>)
    | NullableWrapper(of: Kind, inner: Payload)

  function KindOf(p: Payload): Kind
    requires !p.Null?
  {
    match p
    case ByteArray(_) => ByteArrayKind
    case Text(_) => StringKind
    case ObjectCollection(_) => ObjectCollectionKind
    case StringList(_) => StringListKind
    case Positions(_) => PositionsKind
    case Route(_) => RouteKind
    case RouteList(_) => RouteListKind
    case ShapeList(_) => ShapeListKind
    case NullableWrapper(of, _) => WrapperKind(of)
  }

  /** `p` is a value of static type `kind`: null, or of exactly that runtime type. */
  predicate HasKind(p: Payload, kind: Kind)
  {
    p.Null? || KindOf(p) == kind
  }

  /** The cast `(T?)cached` inside its try block: a value of another type makes it throw, and the catch returns null. */
  function Cast(p: Payload, kind: Kind): (r: Payload)
    ensures HasKind(r, kind)
    ensures r == p || r.Null?
    ensures HasKind(p, kind) <==> r == p
  {
    if HasKind(p, kind) then p else Null
  }

  /** `typeof(T).Name`, recorded as the entry's data type. */
  function TypeName(kind: Kind): string
  {
    match kind
    case ByteArrayKind => "Byte[]"
    case StringKind => "String"
    case ObjectCollectionKind => "List`1"
    case StringListKind => "List`1"
    case PositionsKind => "VehicleCurrentPosition"
    case RouteKind => "JsonSerializedRoutes"
    case RouteListKind => "List`1"
    case ShapeListKind => "List`1"
    case WrapperKind(_) => "NullableWrapper`1"
  }

  /**
   * `EstimateObjectSize`: a collection of objects counts 100 per element (in
   * 32-bit arithmetic) and at least 1000, a string 2 per character and at
   * least 100, a byte array its length, anything else (null included) 1000.
   */
  function EstimateObjectSize(p: Payload): (r: int)
    ensures 0 <= r
    ensures p.ByteArray? ==> r == |p.bytes|
    ensures p.Text? ==> 100 <= r
    ensures !p.ByteArray? && !p.Text? ==> 1000 <= r
  {
    match p
    case ObjectCollection(count) => Max(1000, Wrap(count * 100))
    case Text(s) => Max(100, Wrap(|s| * 2))
    case ByteArray(bytes) => |bytes|
    case _ => 1000
  }

  function Max(a: int, b: int): int
  {
    if a < b then b else a
  }

  /** Lists of strings, route dictionaries and wrappers are not collections of objects: their length never matters. */
  lemma EstimateIgnoresTypedCollections(lines: seq<string>, d: VehicleCurrentPosition, kind: Kind, inner: Payload)
    ensures EstimateObjectSize(StringList(lines)) == 1000
    ensures EstimateObjectSize(Positions(d)) == 1000
    ensures EstimateObjectSize(NullableWrapper(kind, inner)) == 1000
  {
  }

  /** A collection of more than `int.MaxValue / 100` objects wraps to a negative product and is estimated at 1000. */
  lemma EstimateOfHugeCollection()
    ensures EstimateObjectSize(ObjectCollection(21474837)) == 1000
    ensures EstimateObjectSize(ObjectCollection(21474836)) == 2147483600
  {
  }

  /** The size in cache units: thousands of estimated bytes, but at least one unit. */
  function SizeUnits(estimate: int): (units: nat)
    requires 0 <= estimate
    ensures 1 <= units
    ensures estimate < 2000 ==> units == 1
    ensures estimate >= 1000 ==> units * 1000 <= estimate < (units + 1) * 1000
  {
    if estimate / 1000 < 1 then 1 else estimate / 1000
  }

  // ---------------------------------------------------------------------------
  // The state.
  // ---------------------------------------------------------------------------

  /** An entry of the backing memory cache. */
  datatype StoreEntry = StoreEntry(value: Payload, expiresAt: int, units: nat)

  /** Why the memory cache dropped an entry. */
  datatype EvictionReason = Removed | Replaced | Expired | Capacity

  datatype CacheState = CacheState(
    store: map<string, StoreEntry>,
    storeSize: int,
    metadata: map<string, CacheEntryInfo>,
    hits: Int32,
    misses: Int32,
    lastCompaction: int,
    sizeLimit: int)

  function UnitsOf(e: StoreEntry): int
  {
    e.units
  }

  function SizeOf(e: CacheEntryInfo): int
  {
    e.estimatedSize
  }

  /** The sum of `f` over the values of `m`. */
  ghost function SumValues<V>(m: map<string, V>, f: V -> int): int
    decreases |m|
  {
    if m == map[] then 0
    else
      var k :| k in m;
      f(m[k]) + SumValues(m - {k}, f)
  }

  /** The sum does not depend on which key is taken first. */
  lemma {:induction false} SumValuesRemove<V>(m: map<string, V>, f: V -> int, k: string)
    requires k in m
    ensures SumValues(m, f) == f(m[k]) + SumValues(m - {k}, f)
    decreases |m|
  {
    var j :| j in m && SumValues(m, f) == f(m[j]) + SumValues(m - {j}, f);
    if j != k {
      SumValuesRemove(m - {j}, f, k);
      SumValuesRemove(m - {k}, f, j);
      assert m - {j} - {k} == m - {k} - {j};
    }
  }

  /** The entries of `m` whose key is in `keys`. */
  function Restrict<V>(m: map<string, V>, keys: set<string>): (r: map<string, V>)
    ensures r.Keys == m.Keys * keys
    ensures forall k :: k in r ==> r[k] == m[k]
  {
    map k | k in m && k in keys :: m[k]
  }

  lemma SumValuesRestrictAdd<V>(m: map<string, V>, f: V -> int, keys: set<string>, k: string)
    requires k in m && k !in keys
    ensures SumValues(Restrict(m, keys + {k}), f) == SumValues(Restrict(m, keys), f) + f(m[k])
  {
    SumValuesRemove(Restrict(m, keys + {k}), f, k);
    assert Restrict(m, keys + {k}) - {k} == Restrict(m, keys);
  }

  /**
   * The invariant of the cache: the running size is the sum of the entries'
   * units and stays within the size limit, and every metadata record is filed
   * under its own key.
   */
  ghost predicate Inv(s: CacheState)
  {
    && 0 <= s.sizeLimit
    && s.storeSize == SumValues(s.store, UnitsOf)
    && s.storeSize <= s.sizeLimit
    && (forall k :: k in s.metadata ==> s.metadata[k].key == k)
  }

  /** A new service over an empty memory cache. */
  function Empty(sizeLimit: int, now: int): (s: CacheState)
    requires 0 <= sizeLimit
    ensures Inv(s)
    ensures s.store == map[] && s.metadata == map[] && s.hits == 0 && s.misses == 0
  {
    CacheState(map[], 0, map[], 0, 0, now, sizeLimit)
  }

  // ---------------------------------------------------------------------------
  // The memory cache and the eviction callback.
  // ---------------------------------------------------------------------------

  /** The registered post-eviction callback: forget the key's metadata; a capacity eviction also stamps the compaction time. */
  function EvictionCallback(s: CacheState, evictedKey: string, reason: EvictionReason, now: int): (r: CacheState)
    ensures r.metadata == s.metadata - {evictedKey}
    ensures r.lastCompaction == if reason == Capacity then now else s.lastCompaction
    ensures r.store == s.store && r.storeSize == s.storeSize
    ensures r.hits == s.hits && r.misses == s.misses && r.sizeLimit == s.sizeLimit
  {
    s.(metadata := s.metadata - {evictedKey},
       lastCompaction := if reason == Capacity then now else s.lastCompaction)
  }

  /** The memory cache drops an entry, gives back its units and raises the callback. */
  function RemoveEntry(s: CacheState, key: string, reason: EvictionReason, now: int): (r: CacheState)
    requires key in s.store
  {
    EvictionCallback(s.(store := s.store - {key}, storeSize := s.storeSize - s.store[key].units), key, reason, now)
  }

  lemma RemoveEntryInv(s: CacheState, key: string, reason: EvictionReason, now: int)
    requires Inv(s) && key in s.store
    ensures Inv(RemoveEntry(s, key, reason, now))
    ensures key !in RemoveEntry(s, key, reason, now).store && key !in RemoveEntry(s, key, reason, now).metadata
  {
    SumValuesRemove(s.store, UnitsOf, key);
  }

  /**
   * `TryGetValue`: a live entry is found; an entry whose absolute expiry has
   * come is dropped (reason Expired) and not found.
   */
  function TryGetValue(s: CacheState, key: string, now: int): (r: (CacheState, Option<Payload>))
  {
    if key !in s.store then (s, None)
    else if now < s.store[key].expiresAt then (s, Some(s.store[key].value))
    else (RemoveEntry(s, key, Expired, now), None)
  }

  /** An entry is live while the clock is before its absolute expiry. */
  predicate Live(s: CacheState, key: string, now: int)
  {
    key in s.store && now < s.store[key].expiresAt
  }

  /** Whether a new entry of `units` fits: the units already held (a prior entry under the same key included) plus the new ones. */
  predicate Fits(s: CacheState, units: int)
  {
    s.storeSize + units <= s.sizeLimit
  }

  /**
   * `Set` on a size-limited memory cache. An entry that fits replaces the
   * prior one (which is reported Replaced). One that does not fit is rejected
   * (reported Capacity) and the prior entry is dropped as well.
   */
  function StoreValue(s: CacheState, key: string, entry: StoreEntry, now: int): (r: CacheState)
  {
    if Fits(s, entry.units) then
      var prior := if key in s.store then s.store[key].units else 0;
      var admitted := s.(store := s.store[key := entry], storeSize := s.storeSize + entry.units - prior);
      if key in s.store then EvictionCallback(admitted, key, Replaced, now) else admitted
    else
      var rejected := EvictionCallback(s, key, Capacity, now);
      if key in s.store then RemoveEntry(rejected, key, Replaced, now) else rejected
  }

  lemma StoreValueInv(s: CacheState, key: string, entry: StoreEntry, now: int)
    requires Inv(s)
    ensures Inv(StoreValue(s, key, entry, now))
  {
    if Fits(s, entry.units) {
      var m := s.store[key := entry];
      SumValuesRemove(m, UnitsOf, key);
      assert m - {key} == s.store - {key};
      if key in s.store {
        SumValuesRemove(s.store, UnitsOf, key);
      } else {
        assert s.store - {key} == s.store;
      }
    } else if key in s.store {
      RemoveEntryInv(EvictionCallback(s, key, Capacity, now), key, Replaced, now);
    }
  }

  // ---------------------------------------------------------------------------
  // The service's operations.
  // ---------------------------------------------------------------------------

  /**
   * `GetAsync<T>`: a found entry counts a hit and is returned cast to `kind`
   * (null when it is of another type); otherwise a miss is counted and null
   * returned.
   */
  function Get(s: CacheState, key: string, kind: Kind, now: int): (r: (CacheState, Payload))
  {
    var (s1, found) := TryGetValue(s, key, now);
    if found.Some? then (s1.(hits := Increment(s1.hits)), Cast(found.value, kind))
    else (s1.(misses := Increment(s1.misses)), Null)
  }

  /** The metadata a set records. */
  function EntryInfo(key: string, value: Payload, kind: Kind, ttl: int, now: int): CacheEntryInfo
  {
    CacheEntryInfo(key, now, Some(now + ttl), EstimateObjectSize(value), TypeName(kind))
  }

  /**
   * `SetAsync<T>`: a non-positive expiration is refused before anything
   * changes; otherwise the value is stored with absolute expiry `now + ttl`
   * and its size units, and the metadata for `key` is written last.
   */
  function Set(s: CacheState, key: string, value: Payload, kind: Kind, ttl: int, now: int): (r: Result<CacheState, Error>)
  {
    if ttl <= 0 then Failure(ExpirationOutOfRange(ttl))
    else
      var size := EstimateObjectSize(value);
      var stored := StoreValue(s, key, StoreEntry(value, now + ttl, SizeUnits(size)), now);
      Success(stored.(metadata := stored.metadata[key := EntryInfo(key, value, kind, ttl, now)]))
  }

  /** `RemoveAsync`: drops the entry (reason Removed) if the memory cache holds one. */
  function Remove(s: CacheState, key: string, now: int): (r: CacheState)
  {
    if key in s.store then RemoveEntry(s, key, Removed, now) else s
  }

  /** `ContainsKey`: the memory cache's `TryGetValue`, without touching the counters. */
  function Contains(s: CacheState, key: string, now: int): (r: (CacheState, bool))
  {
    var (s1, found) := TryGetValue(s, key, now);
    (s1, found.Some?)
  }

  /** `ClearCache`: empties the metadata index only. */
  function Clear(s: CacheState): (r: CacheState)
  {
    s.(metadata := map[])
  }

  /**
   * `GetOrSetAsync<T>`: a non-null cached value is returned without calling
   * `fetch`; otherwise `fetch` runs once, its value is set and returned, and
   * its failure (or the set's) propagates. The flag reports whether `fetch` ran.
   */
  function GetOrSet(s: CacheState, key: string, kind: Kind, fetch: () -> Result<Payload, Error>, ttl: int, now: int)
    : (r: (CacheState, Result<Payload, Error>, bool))
  {
    var (s1, cached) := Get(s, key, kind, now);
    if !cached.Null? then (s1, Success(cached), false)
    else
      match fetch()
      case Failure(e) => (s1, Failure(e), true)
      case Success(value) =>
        match Set(s1, key, value, kind, ttl, now)
        case Failure(e) => (s1, Failure(e), true)
        case Success(s2) => (s2, Success(value), true)
  }

  /**
   * `GetOrSetNullableAsync<T>`: like `GetOrSet`, but the value is stored
   * inside a `NullableWrapper<T>`, so a null result is cached too.
   */
  function GetOrSetNullable(s: CacheState, key: string, kind: Kind, fetch: () -> Result<Payload, Error>, ttl: int, now: int)
    : (r: (CacheState, Result<Payload, Error>, bool))
  {
    var (s1, wrapper) := Get(s, key, WrapperKind(kind), now);
    if wrapper.NullableWrapper? then (s1, Success(wrapper.inner), false)
    else
      match fetch()
      case Failure(e) => (s1, Failure(e), true)
      case Success(value) =>
        match Set(s1, key, NullableWrapper(kind, value), WrapperKind(kind), ttl, now)
        case Failure(e) => (s1, Failure(e), true)
        case Success(s2) => (s2, Success(value), true)
  }

  /** The sweep at the start of `GetDiagnostics`: the metadata of every expired entry is removed. */
  function Sweep(s: CacheState, now: int): (r: CacheState)
  {
    s.(metadata := map k | k in s.metadata && !IsExpired(s.metadata[k], now) :: s.metadata[k])
  }

  // ---------------------------------------------------------------------------
  // The most recent entries of a diagnostics snapshot.
  // ---------------------------------------------------------------------------

  predicate SortedBySetAtDesc(s: seq<CacheEntryInfo>)
  {
    forall i, j :: 0 <= i < j < |s| ==> s[i].setAt >= s[j].setAt
  }

  /** An entry at least as recent as every entry of a sorted list can go first. */
  lemma PrependKeepsSorted(x: CacheEntryInfo, t: seq<CacheEntryInfo>)
    requires SortedBySetAtDesc(t)
    requires forall y :: y in t ==> x.setAt >= y.setAt
    ensures SortedBySetAtDesc([x] + t)
  {
    var r := [x] + t;
    forall i, j | 0 <= i < j < |r|
      ensures r[i].setAt >= r[j].setAt
    {
      assert r[j] == t[j - 1];
      if i > 0 {
        assert r[i] == t[i - 1];
      }
    }
  }

  /** Inserts `e` into a list sorted newest first, ahead of the entries as recent as it. */
  function InsertBySetAt(e: CacheEntryInfo, s: seq<CacheEntryInfo>): (r: seq<CacheEntryInfo>)
    ensures multiset(r) == multiset(s) + multiset{e}
  {
    if s == [] || e.setAt >= s[0].setAt then [e] + s
    else
      assert s == [s[0]] + s[1..];
      [s[0]] + InsertBySetAt(e, s[1..])
  }

  /** Inserting into a list sorted newest first keeps it sorted. */
  lemma {:induction false} InsertBySetAtKeepsSorted(e: CacheEntryInfo, s: seq<CacheEntryInfo>)
    requires SortedBySetAtDesc(s)
    ensures SortedBySetAtDesc(InsertBySetAt(e, s))
  {
    if s == [] {
    } else if e.setAt >= s[0].setAt {
      HeadIsNewest(s);
      PrependKeepsSorted(e, s);
    } else {
      var rest := InsertBySetAt(e, s[1..]);
      InsertBySetAtKeepsSorted(e, s[1..]);
      TailIsNoNewer(s);
      forall x | x in rest
        ensures s[0].setAt >= x.setAt
      {
        assert x in multiset(rest);
      }
      PrependKeepsSorted(s[0], rest);
    }
  }

  /** The first entry of a list sorted newest first is as recent as any after it. */
  lemma TailIsNoNewer(s: seq<CacheEntryInfo>)
    requires SortedBySetAtDesc(s) && s != []
    ensures forall y :: y in multiset(s[1..]) ==> s[0].setAt >= y.setAt
  {
    forall y | y in multiset(s[1..])
      ensures s[0].setAt >= y.setAt
    {
      var k :| 0 <= k < |s| - 1 && s[1..][k] == y;
      assert s[k + 1] == y;
    }
  }

  /** The first entry of a list sorted newest first is as recent as any. */
  lemma HeadIsNewest(s: seq<CacheEntryInfo>)
    requires SortedBySetAtDesc(s) && s != []
    ensures forall y :: y in s ==> s[0].setAt >= y.setAt
  {
  }

  /** `OrderByDescending(e => e.SetAt)`. */
  function SortBySetAtDesc(s: seq<CacheEntryInfo>): (r: seq<CacheEntryInfo>)
    ensures SortedBySetAtDesc(r)
    ensures multiset(r) == multiset(s)
  {
    if s == [] then []
    else
      assert s == [s[0]] + s[1..];
      InsertBySetAtKeepsSorted(s[0], SortBySetAtDesc(s[1..]));
      InsertBySetAt(s[0], SortBySetAtDesc(s[1..]))
  }

  const RecentEntryCount: nat := 20

  /** `OrderByDescending(e => e.SetAt).Take(20)`. */
  function TopRecent(entries: seq<CacheEntryInfo>): (r: seq<CacheEntryInfo>)
  {
    var sorted := SortBySetAtDesc(entries);
    if |sorted| <= RecentEntryCount then sorted else sorted[..RecentEntryCount]
  }

  /**
   * A selection of the most recent entries of `m`: as many as there are, up
   * to 20, newest first, each one an entry of `m`, and none newer than any
   * entry left out.
   */
  predicate IsRecentSelection(recent: seq<CacheEntryInfo>, m: map<string, CacheEntryInfo>)
  {
    && |recent| == (if |m| <= RecentEntryCount then |m| else RecentEntryCount)
    && SortedBySetAtDesc(recent)
    && (forall i :: 0 <= i < |recent| ==> recent[i].key in m && m[recent[i].key] == recent[i])
    && (forall i, j :: 0 <= i < j < |recent| ==> recent[i].key != recent[j].key)
    && (forall k, i :: k in m && m[k] !in recent && 0 <= i < |recent| ==> m[k].setAt <= recent[i].setAt)
  }

  /** Taking the first 20 of the sorted entries of `m` selects the most recent ones. */
  lemma TopRecentSelects(entries: seq<CacheEntryInfo>, m: map<string, CacheEntryInfo>)
    requires |entries| == |m|
    requires forall i :: 0 <= i < |entries| ==> entries[i].key in m && m[entries[i].key] == entries[i]
    requires forall i, j :: 0 <= i < j < |entries| ==> entries[i].key != entries[j].key
    ensures IsRecentSelection(TopRecent(entries), m)
  {
    var sorted := SortBySetAtDesc(entries);
    var n := |TopRecent(entries)|;
    assert |sorted| == |entries| by {
      assert |multiset(sorted)| == |multiset(entries)|;
    }
    assert TopRecent(entries) == sorted[..n];
    SortedEntriesDistinct(entries, sorted);
    PrefixSelects(entries, m, sorted, n);
  }

  /** The first `n` entries of a sorted arrangement of the entries of `m` are a selection of the most recent. */
  lemma PrefixSelects(entries: seq<CacheEntryInfo>, m: map<string, CacheEntryInfo>, sorted: seq<CacheEntryInfo>, n: nat)
    requires |entries| == |m| == |sorted|
    requires n == if |m| <= RecentEntryCount then |m| else RecentEntryCount
    requires forall i :: 0 <= i < |entries| ==> entries[i].key in m && m[entries[i].key] == entries[i]
    requires forall i, j :: 0 <= i < j < |entries| ==> entries[i].key != entries[j].key
    requires multiset(sorted) == multiset(entries) && SortedBySetAtDesc(sorted)
    requires forall i, j :: 0 <= i < j < |sorted| ==> sorted[i] != sorted[j]
    ensures IsRecentSelection(sorted[..n], m)
  {
    var recent := sorted[..n];
    forall i | 0 <= i < n ensures recent[i].key in m && m[recent[i].key] == recent[i] {
      assert recent[i] in multiset(sorted);
      assert recent[i] in entries;
    }
    forall i, j | 0 <= i < j < n ensures recent[i].key != recent[j].key {
      assert recent[i] != recent[j];
    }
    forall k | k in m && m[k] !in recent ensures forall i :: 0 <= i < n ==> m[k].setAt <= recent[i].setAt {
      EveryKeyListed(entries, m, k);
      assert m[k] in multiset(sorted);
      LeftOutIsOlder(sorted, n, m[k]);
    }
  }

  /** An entry of a sorted list that is not among its first `n` is no newer than any of them. */
  lemma LeftOutIsOlder(sorted: seq<CacheEntryInfo>, n: nat, x: CacheEntryInfo)
    requires SortedBySetAtDesc(sorted) && n <= |sorted|
    requires x in sorted && x !in sorted[..n]
    ensures forall i :: 0 <= i < n ==> x.setAt <= sorted[i].setAt
  {
    var j :| 0 <= j < |sorted| && sorted[j] == x;
  }

  /** With distinct keys the entries are distinct, and so are the sorted entries. */
  lemma SortedEntriesDistinct(entries: seq<CacheEntryInfo>, sorted: seq<CacheEntryInfo>)
    requires multiset(sorted) == multiset(entries)
    requires forall a, b :: 0 <= a < b < |entries| ==> entries[a].key != entries[b].key
    ensures forall i, j :: 0 <= i < j < |sorted| ==> sorted[i] != sorted[j]
  {
    forall i, j | 0 <= i < j < |sorted| ensures sorted[i] != sorted[j] {
      if sorted[i] == sorted[j] {
        var e := sorted[i];
        assert multiset(sorted)[e] >= 2 by {
          assert sorted == sorted[..i] + [e] + sorted[i + 1..j] + [e] + sorted[j + 1..];
        }
        DistinctKeysOccurOnce(entries, e);
        assert false;
      }
    }
  }

  lemma {:induction false} DistinctKeysOccurOnce(entries: seq<CacheEntryInfo>, e: CacheEntryInfo)
    requires forall a, b :: 0 <= a < b < |entries| ==> entries[a].key != entries[b].key
    ensures multiset(entries)[e] <= 1
  {
    if entries != [] {
      var rest := entries[1..];
      assert entries == [entries[0]] + rest;
      DistinctKeysOccurOnce(rest, e);
      if entries[0] == e {
        assert e !in rest;
      }
    }
  }

  /** Entries that list distinct keys of `m`, as many as `m` has, list every key. */
  lemma EveryKeyListed(entries: seq<CacheEntryInfo>, m: map<string, CacheEntryInfo>, k: string)
    requires |entries| == |m| && k in m
    requires forall i :: 0 <= i < |entries| ==> entries[i].key in m && m[entries[i].key] == entries[i]
    requires forall i, j :: 0 <= i < j < |entries| ==> entries[i].key != entries[j].key
    ensures m[k] in entries
  {
    var keys := set i | 0 <= i < |entries| :: entries[i].key;
    if m[k] !in entries {
      assert keys <= m.Keys - {k};
      KeysOfDistinct(entries);
      assert |m.Keys - {k}| == |m| - 1;
      SubsetCardinality(keys, m.Keys - {k});
      assert false;
    }
  }

  lemma {:induction false} KeysOfDistinct(entries: seq<CacheEntryInfo>)
    requires forall i, j :: 0 <= i < j < |entries| ==> entries[i].key != entries[j].key
    ensures |set i | 0 <= i < |entries| :: entries[i].key| == |entries|
  {
    if entries != [] {
      var n := |entries| - 1;
      var init := entries[..n];
      KeysOfDistinct(init);
      var before := set i | 0 <= i < n :: init[i].key;
      var after := set i | 0 <= i < |entries| :: entries[i].key;
      assert after == before + {entries[n].key};
      assert entries[n].key !in before;
    }
  }

  lemma SubsetCardinality(a: set<string>, b: set<string>)
    requires a <= b
    ensures |a| <= |b|
  {
    assert b == a + (b - a);
  }
}
