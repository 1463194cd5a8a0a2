/**
 * `RouteClient`: the browser client's reading of the route rows the API
 * serves. `parseRouteData` splits a row on the commas outside quotes, and
 * `loadAvailableRoutes` keeps the routes whose id `parseInt` reads as a
 * number. `getRouteColor` picks a palette entry from the position of a
 * tracked route among the tracked ids sorted as strings. The page, the map
 * and the network calls around them are not modelled.
 */
module RouteClient {
  import opened Wrappers
  import opened Text

  // ---------------------------------------------------------------------------
  // String.prototype.trim
  // ---------------------------------------------------------------------------

  /** The characters ECMAScript's `trim` removes: its WhiteSpace and LineTerminator characters. */
  predicate IsJsWhiteSpace(c: char)
  {
    || c == '\t' || c == '\n' || c == '\U{000B}' || c == '\U{000C}' || c == '\r' || c == ' '
    || c == '\U{00A0}' || c == '\U{1680}' || ('\U{2000}' <= c <= '\U{200A}')
    || c == '\U{2028}' || c == '\U{2029}' || c == '\U{202F}' || c == '\U{205F}' || c == '\U{3000}' || c == '\U{FEFF}'
  }

  function JsTrim(s: string): string
  {
    Trim(s, IsJsWhiteSpace)
  }

  // ---------------------------------------------------------------------------
  // parseRouteData
  // ---------------------------------------------------------------------------

  /**
   * The state of the splitting loop: the parts ended so far (before
   * trimming), the part being read, and the quote mode.
   */
  datatype Scan = Scan(parts: seq<string>, current: string, inQuotes: bool)

  const Start: Scan := Scan([], "", false)

  /** One character: a quote toggles the mode, a comma outside quotes ends a part, anything else is kept. */
  function Step(st: Scan, c: char): Scan
  {
    if c == '"' then st.(inQuotes := !st.inQuotes)
    else if c == ',' && !st.inQuotes then Scan(st.parts + [st.current], "", st.inQuotes)
    else st.(current := st.current + [c])
  }

  /** The loop over `s` from the state `st`. */
  function ScanFrom(st: Scan, s: string): Scan
    decreases |s|
  {
    if s == [] then st else Step(ScanFrom(st, s[..|s| - 1]), s[|s| - 1])
  }

  /** Every part trimmed. */
  function TrimAll(raw: seq<string>): (parts: seq<string>)
    ensures |parts| == |raw|
    ensures forall i :: 0 <= i < |raw| ==> parts[i] == JsTrim(raw[i])
  {
    if raw == [] then [] else TrimAll(raw[..|raw| - 1]) + [JsTrim(raw[|raw| - 1])]
  }

  /** The parts of a row before trimming: every part the loop ended, and the last one. */
  function RawParts(csv: string): seq<string>
  {
    var st := ScanFrom(Start, csv);
    st.parts + [st.current]
  }

  /** The parts of a row, each trimmed. */
  function SplitRow(csv: string): seq<string>
  {
    TrimAll(RawParts(csv))
  }

  /** A JavaScript integer as `parseInt` yields it: NaN, or an integer (precision beyond 2^53 is not modelled). */
  datatype JsInt = NaN | Int(value: int)

  /** What `parseRouteData` returns; a `routeType` of `None` is JavaScript's `null`. */
  datatype ParsedRoute = ParsedRoute(id: string, name: string, routeType: Option<JsInt>)

  /** A part as a truthy test sees it: absent or empty is false. */
  predicate Truthy(parts: seq<string>, i: nat)
  {
    i < |parts| && parts[i] != ""
  }

  /** The fields of a route: parts 2 and 3 without quotes, and part 5 through `parseInt`. */
  function RouteOfParts(parts: seq<string>): ParsedRoute
  {
    ParsedRoute(
      if Truthy(parts, 2) then RemoveChar(parts[2], '"') else "",
      if Truthy(parts, 3) then RemoveChar(parts[3], '"') else "",
      if Truthy(parts, 5) then Some(ParseIntJs(parts[5])) else None)
  }

  /** `parseRouteData` as a function of the row. */
  function ParseRow(csv: string): ParsedRoute
  {
    RouteOfParts(SplitRow(csv))
  }

  /** `parseRouteData`: the character loop of the client. */
  method ParseRouteData(csvString: string) returns (route: ParsedRoute)
    ensures route == ParseRow(csvString)
  {
    var parts: seq<string> := [];
    var current := "";
    var inQuotes := false;
    for i := 0 to |csvString|
      invariant var st := ScanFrom(Start, csvString[..i]);
        current == st.current && inQuotes == st.inQuotes && parts == TrimAll(st.parts)
    {
      assert csvString[..i + 1][..i] == csvString[..i];
      var c := csvString[i];
      if c == '"' {
        inQuotes := !inQuotes;
      } else if c == ',' && !inQuotes {
        ghost var raw := ScanFrom(Start, csvString[..i]).parts;
        assert (raw + [current])[..|raw|] == raw;
        parts := parts + [JsTrim(current)];
        current := "";
      } else {
        current := current + [c];
      }
    }
    assert csvString[..|csvString|] == csvString;
    ghost var raw := ScanFrom(Start, csvString).parts;
    assert (raw + [current])[..|raw|] == raw;
    parts := parts + [JsTrim(current)];
    route := RouteOfParts(parts);
  }

  /** The commas of `s` that have an even number of quotes before them. */
  function UnquotedCommas(s: string): nat
  {
    if s == [] then 0
    else
      var n := |s| - 1;
      UnquotedCommas(s[..n]) + (if s[n] == ',' && CountChar(s[..n], '"') % 2 == 0 then 1 else 0)
  }

  /**
   * The loop is in quote mode exactly after an odd number of quotes, and it
   * ends one part per comma outside quotes.
   */
  lemma {:induction false} ScanCounts(s: string)
    ensures ScanFrom(Start, s).inQuotes <==> CountChar(s, '"') % 2 == 1
    ensures |ScanFrom(Start, s).parts| == UnquotedCommas(s)
  {
    if s != [] {
      var n := |s| - 1;
      var p := s[..n];
      ScanCounts(p);
      StepCounts(ScanFrom(Start, p), s[n]);
      CountQuotesStep(s);
    }
  }

  /** The quotes of `s` are those before its last character, and one more if that is a quote. */
  lemma CountQuotesStep(s: string)
    requires s != []
    ensures var n := |s| - 1;
      CountChar(s, '"') == CountChar(s[..n], '"') + (if s[n] == '"' then 1 else 0)
  {
    var n := |s| - 1;
    assert s == s[..n] + [s[n]];
    CountCharAppend(s[..n], [s[n]], '"');
  }

  /** One character: a quote flips the mode, an unquoted comma ends one part. */
  lemma StepCounts(st: Scan, c: char)
    ensures Step(st, c).inQuotes <==> (st.inQuotes != (c == '"'))
    ensures |Step(st, c).parts| == |st.parts| + (if c == ',' && !st.inQuotes then 1 else 0)
  {
  }

  /** A row has one part more than it has commas outside quotes. */
  lemma PartCount(csv: string)
    ensures |SplitRow(csv)| == UnquotedCommas(csv) + 1
  {
    ScanCounts(csv);
  }

  /** The loop never keeps a quote. */
  lemma {:induction false} ScanKeepsNoQuote(s: string)
    ensures '"' !in ScanFrom(Start, s).current
    ensures forall i :: 0 <= i < |ScanFrom(Start, s).parts| ==> '"' !in ScanFrom(Start, s).parts[i]
  {
    if s != [] {
      ScanKeepsNoQuote(s[..|s| - 1]);
    }
  }

  /** Quotes never reach a part, and every part is trimmed. */
  lemma PartsHaveNoQuotes(csv: string)
    ensures forall i :: 0 <= i < |SplitRow(csv)| ==> '"' !in SplitRow(csv)[i] && JsTrim(SplitRow(csv)[i]) == SplitRow(csv)[i]
  {
    var st := ScanFrom(Start, csv);
    var raw := st.parts + [st.current];
    ScanKeepsNoQuote(csv);
    forall i | 0 <= i < |raw|
      ensures '"' !in JsTrim(raw[i]) && JsTrim(JsTrim(raw[i])) == JsTrim(raw[i])
    {
      TrimKeepsOnlyInputCharacters(raw[i], IsJsWhiteSpace, '"');
      TrimIdempotent(raw[i], IsJsWhiteSpace);
    }
  }

  /** The quote removal on id and name changes nothing: the parts hold no quote already. */
  lemma QuoteRemovalIsIdentity(csv: string)
    ensures var parts := SplitRow(csv);
      && ParseRow(csv).id == (if Truthy(parts, 2) then parts[2] else "")
      && ParseRow(csv).name == (if Truthy(parts, 3) then parts[3] else "")
  {
    var parts := SplitRow(csv);
    PartsHaveNoQuotes(csv);
    if Truthy(parts, 2) {
      RemoveAbsentChar(parts[2], '"');
    }
    if Truthy(parts, 3) {
      RemoveAbsentChar(parts[3], '"');
    }
  }

  /** Running the loop over `a + b` runs it over `a`, then over `b`. */
  lemma {:induction false} ScanAppend(st: Scan, a: string, b: string)
    ensures ScanFrom(st, a + b) == ScanFrom(ScanFrom(st, a), b)
    decreases |b|
  {
    if b == [] {
      assert a + b == a;
    } else {
      var n := |b| - 1;
      assert (a + b)[..|a + b| - 1] == a + b[..n];
      ScanAppend(st, a, b[..n]);
    }
  }

  /** Text without quotes (and, outside quotes, without commas) is added to the current part. */
  lemma {:induction false} ScanLiteral(st: Scan, f: string)
    requires '"' !in f && (st.inQuotes || ',' !in f)
    ensures ScanFrom(st, f) == st.(current := st.current + f)
    decreases |f|
  {
    if f != [] {
      var n := |f| - 1;
      assert f == f[..n] + [f[n]];
      ScanLiteral(st, f[..n]);
    }
  }

  /** A quoted field without quotes is added to the current part whole, commas included. */
  lemma ScanQuoted(st: Scan, f: string)
    requires '"' !in f && !st.inQuotes
    ensures ScanFrom(st, Quoted(f)) == st.(current := st.current + f)
  {
    assert Quoted(f) == ['"'] + f + ['"'];
    ScanAppend(st, ['"'] + f, ['"']);
    ScanAppend(st, ['"'], f);
    assert ScanFrom(st, ['"']) == st.(inQuotes := true) by {
      assert ['"'][..0] == [];
    }
    ScanLiteral(st.(inQuotes := true), f);
    assert ScanFrom(st.(inQuotes := true, current := st.current + f), ['"']) == st.(current := st.current + f) by {
      assert ['"'][..0] == [];
    }
  }

  /** A field as a writer puts it in a row: quoted, or as it is. */
  function Encode(field: string, quoted: bool): string
  {
    if quoted then Quoted(field) else field
  }

  /** A row written from its fields, separated by commas. */
  function Row(fields: seq<string>, quoted: bool): string
    requires |fields| >= 1
  {
    var n := |fields| - 1;
    if n == 0 then Encode(fields[0], quoted) else Row(fields[..n], quoted) + "," + Encode(fields[n], quoted)
  }

  /** A field the writer can put in a row so that it reads back: no quotes, and no commas unless quoted. */
  predicate Writable(field: string, quoted: bool)
  {
    '"' !in field && (quoted || ',' !in field)
  }

  lemma {:induction false} ScanRow(fields: seq<string>, quoted: bool)
    requires |fields| >= 1
    requires forall i :: 0 <= i < |fields| ==> Writable(fields[i], quoted)
    ensures ScanFrom(Start, Row(fields, quoted)) == Scan(fields[..|fields| - 1], fields[|fields| - 1], false)
  {
    var n := |fields| - 1;
    var f := fields[n];
    if n == 0 {
      if quoted {
        ScanQuoted(Start, f);
      } else {
        ScanLiteral(Start, f);
      }
    } else {
      var prefix := fields[..n];
      ScanRow(prefix, quoted);
      var st := ScanFrom(Start, Row(prefix, quoted));
      ScanAppend(Start, Row(prefix, quoted) + ",", Encode(f, quoted));
      ScanAppend(Start, Row(prefix, quoted), ",");
      assert ScanFrom(st, ",") == Step(st, ',') by {
        assert ","[..0] == [];
      }
      var st1 := Scan(st.parts + [st.current], "", false);
      if quoted {
        ScanQuoted(st1, f);
      } else {
        ScanLiteral(st1, f);
      }
      assert st1.parts == fields[..n];
    }
  }

  /**
   * Reading a written row gives back its fields (which `SplitRow` then
   * trims): quoting lets a field carry commas, which the server's plain
   * comma split would break.
   */
  lemma RowRoundTrip(fields: seq<string>, quoted: bool)
    requires |fields| >= 1
    requires forall i :: 0 <= i < |fields| ==> Writable(fields[i], quoted)
    ensures RawParts(Row(fields, quoted)) == fields
  {
    ScanRow(fields, quoted);
    assert fields[..|fields| - 1] + [fields[|fields| - 1]] == fields;
  }

  // ---------------------------------------------------------------------------
  // parseInt
  // ---------------------------------------------------------------------------

  predicate IsHexDigit(c: char)
  {
    IsDigit(c) || 'a' <= c <= 'f' || 'A' <= c <= 'F'
  }

  function HexDigitValue(c: char): nat
    requires IsHexDigit(c)
  {
    if IsDigit(c) then c as int - '0' as int
    else if 'a' <= c <= 'f' then c as int - 'a' as int + 10
    else c as int - 'A' as int + 10
  }

  /** The value of a run of hexadecimal digits, most significant first. */
  function HexValue(s: string): nat
    requires forall i :: 0 <= i < |s| ==> IsHexDigit(s[i])
  {
    if s == [] then 0
    else HexValue(s[..|s| - 1]) * 16 + HexDigitValue(s[|s| - 1])
  }

  /** The longest prefix of `s` whose characters all satisfy `p`. */
  function LeadingRun(s: string, p: char -> bool): (r: string)
    ensures |r| <= |s| && r == s[..|r|]
    ensures forall i :: 0 <= i < |r| ==> p(r[i])
    ensures |r| == |s| || !p(s[|r|])
  {
    if s != [] && p(s[0]) then [s[0]] + LeadingRun(s[1..], p) else []
  }

  /**
   * `parseInt(s)` without a radix: leading white space is skipped, a sign is
   * read, a `0x` or `0X` prefix selects base 16, and the longest run of
   * digits that follows is the value; no digits at all is NaN.
   */
  function ParseIntJs(s: string): JsInt
  {
    ParseSigned(TrimStart(s, IsJsWhiteSpace))
  }

  /** `parseInt` after the white space: an optional sign, then the magnitude. */
  function ParseSigned(t: string): JsInt
  {
    var negative := |t| > 0 && t[0] == '-';
    var u := if |t| > 0 && (t[0] == '+' || t[0] == '-') then t[1..] else t;
    match Magnitude(u)
    case None => NaN
    case Some(m) => Int(if negative then -(m as int) else m)
  }

  /** The value of the leading digits of `u`, hexadecimal after `0x` or `0X`; none without digits. */
  function Magnitude(u: string): Option<nat>
  {
    var hex := |u| >= 2 && u[0] == '0' && (u[1] == 'x' || u[1] == 'X');
    var digits := if hex then LeadingRun(u[2..], IsHexDigit) else LeadingRun(u, IsDigit);
    if digits == [] then None
    else if hex then Some(HexValue(digits))
    else Some(DigitsValue(digits))
  }

  /** The digits of `d` are the leading run of `d + rest` when `rest` does not go on with a digit. */
  lemma LeadingDigits(d: string, rest: string)
    requires forall i :: 0 <= i < |d| ==> IsDigit(d[i])
    requires rest == [] || !IsDigit(rest[0])
    ensures LeadingRun(d + rest, IsDigit) == d
  {
    var s := d + rest;
    var r := LeadingRun(s, IsDigit);
    assert forall i :: 0 <= i < |d| ==> IsDigit(s[i]);
    assert |d| < |s| ==> !IsDigit(s[|d|]);
    assert |r| == |d|;
    assert r == s[..|d|] == d;
  }

  /** The magnitude of decimal digits followed by anything but a digit or an `x`. */
  lemma MagnitudeOfDigits(d: string, rest: string)
    requires d != [] && forall i :: 0 <= i < |d| ==> IsDigit(d[i])
    requires rest == [] || (!IsDigit(rest[0]) && rest[0] != 'x' && rest[0] != 'X')
    ensures Magnitude(d + rest) == Some(DigitsValue(d))
  {
    var s := d + rest;
    assert !(|s| >= 2 && s[0] == '0' && (s[1] == 'x' || s[1] == 'X')) by {
      if |s| >= 2 && |d| >= 2 {
        assert s[1] == d[1];
      } else if |s| >= 2 {
        assert s[1] == rest[0];
      }
    }
    LeadingDigits(d, rest);
  }

  /** The magnitude of a decimal number followed by anything but a digit or an `x`. */
  lemma MagnitudeOfDecimal(n: nat, rest: string)
    requires rest == [] || (!IsDigit(rest[0]) && rest[0] != 'x' && rest[0] != 'X')
    ensures Magnitude(Decimal(n) + rest) == Some(n)
  {
    MagnitudeOfDigits(Decimal(n), rest);
    DecimalRoundTrip(n);
  }

  /** `parseInt` reads a decimal number back, and ignores what follows it (short of an `x` after a lone 0). */
  lemma ParseIntReadsDecimal(n: nat, rest: string)
    requires rest == [] || (!IsDigit(rest[0]) && rest[0] != 'x' && rest[0] != 'X')
    ensures ParseIntJs(Decimal(n) + rest) == Int(n)
  {
    var s := Decimal(n) + rest;
    assert s[0] == Decimal(n)[0];
    assert TrimStart(s, IsJsWhiteSpace) == s;
    MagnitudeOfDecimal(n, rest);
  }

  /** Text without any decimal digit is NaN to `parseInt`. */
  lemma ParseIntNeedsDigit(s: string)
    requires forall i :: 0 <= i < |s| ==> !IsDigit(s[i])
    ensures ParseIntJs(s) == NaN
  {
    var t := TrimStart(s, IsJsWhiteSpace);
    assert forall i :: 0 <= i < |t| ==> t[i] == s[|s| - |t| + i];
    SignedNeedsDigit(t);
  }

  /** After the white space, text without a decimal digit has no magnitude. */
  lemma SignedNeedsDigit(t: string)
    requires forall i :: 0 <= i < |t| ==> !IsDigit(t[i])
    ensures ParseSigned(t) == NaN
  {
    var u := if |t| > 0 && (t[0] == '+' || t[0] == '-') then t[1..] else t;
    assert forall i :: 0 <= i < |u| ==> !IsDigit(u[i]);
    assert Magnitude(u) == None by {
      if u != [] {
        assert !IsDigit(u[0]);
      }
    }
  }

  // ---------------------------------------------------------------------------
  // loadAvailableRoutes
  // ---------------------------------------------------------------------------

  /**
   * The acceptance test of `loadAvailableRoutes`, for a given reading of
   * numbers: a non-empty id and name, and an id that reads as a number.
   */
  predicate AcceptedBy(route: ParsedRoute, parseInt: string -> JsInt)
  {
    route.id != "" && route.name != "" && parseInt(route.id).Int?
  }

  /** A JavaScript `Map` from numeric route id to route, as its entries in insertion order. */
  type RouteMap = seq<(int, ParsedRoute)>

  /** `Array.from(m.keys())`. */
  function MapKeys(m: RouteMap): (keys: seq<int>)
    ensures |keys| == |m|
  {
    if m == [] then [] else [m[0].0] + MapKeys(m[1..])
  }

  /** `m.get(k)`. */
  function MapGet(m: RouteMap, k: int): Option<ParsedRoute>
  {
    if m == [] then None else if m[0].0 == k then Some(m[0].1) else MapGet(m[1..], k)
  }

  /** No key appears twice among the entries. */
  predicate DistinctKeys(m: RouteMap)
  {
    var keys := MapKeys(m);
    forall i, j :: 0 <= i < j < |keys| ==> keys[i] != keys[j]
  }

  /**
   * `m.set(k, v)`: a new key goes last; an existing key keeps its place and
   * takes the new value.
   */
  function MapSet(m: RouteMap, k: int, v: ParsedRoute): (r: RouteMap)
    ensures |r| == |m| || |r| == |m| + 1
  {
    if m == [] then [(k, v)]
    else if m[0].0 == k then [(k, v)] + m[1..]
    else [m[0]] + MapSet(m[1..], k, v)
  }

  /** A key's place: an existing key keeps it, a new key goes last. */
  lemma {:induction false} MapSetKeys(m: RouteMap, k: int, v: ParsedRoute)
    ensures MapKeys(MapSet(m, k, v)) == if k in MapKeys(m) then MapKeys(m) else MapKeys(m) + [k]
  {
    if m != [] && m[0].0 != k {
      MapSetKeys(m[1..], k, v);
      assert MapSet(m, k, v)[1..] == MapSet(m[1..], k, v);
    } else if m != [] {
      assert MapSet(m, k, v)[1..] == m[1..];
    }
  }

  /** The key reads back the new value, and every other key reads as before. */
  lemma {:induction false} MapSetGet(m: RouteMap, k: int, v: ParsedRoute, j: int)
    ensures MapGet(MapSet(m, k, v), j) == if j == k then Some(v) else MapGet(m, j)
  {
    if m != [] && m[0].0 != k {
      MapSetGet(m[1..], k, v, j);
      assert MapSet(m, k, v)[1..] == MapSet(m[1..], k, v);
    } else if m != [] {
      assert MapSet(m, k, v)[1..] == m[1..];
    }
  }

  /** Distinct keys stay distinct. */
  lemma MapSetKeepsKeysDistinct(m: RouteMap, k: int, v: ParsedRoute)
    requires DistinctKeys(m)
    ensures DistinctKeys(MapSet(m, k, v))
  {
    MapSetKeys(m, k, v);
  }

  /**
   * The map the parsed routes build: each accepted route is set under the
   * number its id reads as, in order.
   */
  function Admit(routes: seq<ParsedRoute>, parseInt: string -> JsInt): RouteMap
  {
    if routes == [] then []
    else
      var n := |routes| - 1;
      var m := Admit(routes[..n], parseInt);
      var route := routes[n];
      if AcceptedBy(route, parseInt) then MapSet(m, parseInt(route.id).value, route) else m
  }

  /** One more route: it is set if accepted, and skipped otherwise. */
  lemma AdmitStep(routes: seq<ParsedRoute>, parseInt: string -> JsInt, i: nat)
    requires i < |routes|
    ensures Admit(routes[..i + 1], parseInt) ==
      if AcceptedBy(routes[i], parseInt) then MapSet(Admit(routes[..i], parseInt), parseInt(routes[i].id).value, routes[i])
      else Admit(routes[..i], parseInt)
  {
    assert routes[..i + 1][..i] == routes[..i];
  }

  /** `routesData.map(parseRouteData)`. */
  function ParsedRows(rows: seq<string>): (routes: seq<ParsedRoute>)
    ensures |routes| == |rows|
    ensures forall i :: 0 <= i < |rows| ==> routes[i] == ParseRow(rows[i])
  {
    seq(|rows|, i requires 0 <= i < |rows| => ParseRow(rows[i]))
  }

  /** The routes `loadAvailableRoutes` keeps from the rows, keyed by `parseInt` of their ids. */
  function AvailableRoutes(rows: seq<string>): RouteMap
  {
    Admit(ParsedRows(rows), ParseIntJs)
  }

  /** `loadAvailableRoutes` after a successful download: the map starts empty and takes every accepted row. */
  method LoadAvailableRoutes(routesData: seq<string>) returns (availableRoutes: RouteMap)
    ensures availableRoutes == AvailableRoutes(routesData)
  {
    ghost var parsed := ParsedRows(routesData);
    availableRoutes := [];
    for i := 0 to |routesData|
      invariant availableRoutes == Admit(parsed[..i], ParseIntJs)
    {
      AdmitStep(parsed, ParseIntJs, i);
      var route := ParseRouteData(routesData[i]);
      if route.id != "" && route.name != "" {
        var routeId := ParseIntJs(route.id);
        if routeId.Int? {
          availableRoutes := MapSet(availableRoutes, routeId.value, route);
        }
      }
    }
    assert parsed[..|routesData|] == parsed;
  }

  /** The last accepted route whose id reads as `id`, if any. */
  function LastAcceptedWithId(routes: seq<ParsedRoute>, parseInt: string -> JsInt, id: int): Option<ParsedRoute>
  {
    if routes == [] then None
    else
      var n := |routes| - 1;
      var route := routes[n];
      if AcceptedBy(route, parseInt) && parseInt(route.id) == Int(id) then Some(route)
      else LastAcceptedWithId(routes[..n], parseInt, id)
  }

  /**
   * The map's keys are distinct, and each id maps to the last accepted route
   * with that id: a later row for the same route replaces an earlier one.
   */
  lemma {:induction false} AdmitKeepsLastRoute(routes: seq<ParsedRoute>, parseInt: string -> JsInt, id: int)
    ensures DistinctKeys(Admit(routes, parseInt))
    ensures MapGet(Admit(routes, parseInt), id) == LastAcceptedWithId(routes, parseInt, id)
  {
    if routes != [] {
      var n := |routes| - 1;
      AdmitKeepsLastRoute(routes[..n], parseInt, id);
      var route := routes[n];
      if AcceptedBy(route, parseInt) {
        MapSetGet(Admit(routes[..n], parseInt), parseInt(route.id).value, route, id);
        MapSetKeepsKeysDistinct(Admit(routes[..n], parseInt), parseInt(route.id).value, route);
      }
    }
  }

  /** Only accepted routes reach the map, each under the number its id reads as. */
  lemma {:induction false} AdmitOnlyAccepted(routes: seq<ParsedRoute>, parseInt: string -> JsInt, id: int)
    requires MapGet(Admit(routes, parseInt), id).Some?
    ensures var route := MapGet(Admit(routes, parseInt), id).value;
      AcceptedBy(route, parseInt) && parseInt(route.id) == Int(id) && route in routes
  {
    var n := |routes| - 1;
    var route := routes[n];
    if AcceptedBy(route, parseInt) {
      MapSetGet(Admit(routes[..n], parseInt), parseInt(route.id).value, route, id);
    }
    if !(AcceptedBy(route, parseInt) && parseInt(route.id) == Int(id)) {
      AdmitOnlyAccepted(routes[..n], parseInt, id);
      assert MapGet(Admit(routes, parseInt), id) == MapGet(Admit(routes[..n], parseInt), id);
    }
  }

  /** An accepted route is found under the number its id reads as, when it is the last with that id. */
  lemma AdmitFindsLastRoute(routes: seq<ParsedRoute>, route: ParsedRoute, parseInt: string -> JsInt, id: int)
    requires AcceptedBy(route, parseInt) && parseInt(route.id) == Int(id)
    ensures MapGet(Admit(routes + [route], parseInt), id) == Some(route)
  {
    assert (routes + [route])[..|routes|] == routes;
    MapSetGet(Admit(routes, parseInt), id, route, id);
  }

  /** A route that is not accepted leaves the map as it was. */
  lemma AdmitSkipsRejected(routes: seq<ParsedRoute>, route: ParsedRoute, parseInt: string -> JsInt)
    requires !AcceptedBy(route, parseInt)
    ensures Admit(routes + [route], parseInt) == Admit(routes, parseInt)
  {
    assert (routes + [route])[..|routes|] == routes;
  }

  /** A route whose id is a decimal number and that has a name is accepted under that number. */
  lemma DecimalIdIsAccepted(route: ParsedRoute, n: nat)
    requires route.id == Decimal(n) && route.name != ""
    ensures AcceptedBy(route, ParseIntJs) && ParseIntJs(route.id) == Int(n)
  {
    ParseIntReadsDecimal(n, []);
    assert Decimal(n) + [] == Decimal(n);
  }

  /** A route whose id holds no decimal digit is rejected. */
  lemma NonNumericIdIsRejected(route: ParsedRoute)
    requires forall i :: 0 <= i < |route.id| ==> !IsDigit(route.id[i])
    ensures !AcceptedBy(route, ParseIntJs)
  {
    ParseIntNeedsDigit(route.id);
  }

  // ---------------------------------------------------------------------------
  // getRouteColor
  // ---------------------------------------------------------------------------

  /** The palette of route colours. */
  const RouteColors: seq<string> := ["#007cff", "#dc3545", "#28a745", "#6f42c1", "#fd7e14", "#e83e8c", "#17a2b8", "#6c757d", "#343a40", "#ffc107"]

  /** `String(n)` for an integer: its decimal digits, after a minus sign when negative. */
  function JsNumberString(n: int): (s: string)
    ensures s != []
  {
    if n < 0 then "-" + Decimal(-n) else Decimal(n)
  }

  /** The string starts with a minus sign exactly for a negative number. */
  lemma JsNumberStringSign(n: int)
    ensures JsNumberString(n)[0] == '-' <==> n < 0
  {
    var d := Decimal(if n < 0 then -n else n);
    assert IsDigit(d[0]);
  }

  /** Different integers have different strings. */
  lemma JsNumberStringInjective(a: int, b: int)
    requires JsNumberString(a) == JsNumberString(b)
    ensures a == b
  {
    JsNumberStringSign(a);
    JsNumberStringSign(b);
    var sa, sb := JsNumberString(a), JsNumberString(b);
    if a < 0 && b < 0 {
      assert sa[1..] == Decimal(-a) && sb[1..] == Decimal(-b);
      DecimalInjective(-a, -b);
    } else if a >= 0 && b >= 0 {
      DecimalInjective(a, b);
    }
  }

  /** The order of the default `sort`: strings compared character by character, a proper prefix first. */
  predicate StrLess(a: string, b: string)
  {
    if a == [] then b != []
    else if b == [] then false
    else if a[0] != b[0] then a[0] < b[0]
    else StrLess(a[1..], b[1..])
  }

  lemma {:induction false} StrLessIrreflexive(a: string)
    ensures !StrLess(a, a)
  {
    if a != [] {
      StrLessIrreflexive(a[1..]);
    }
  }

  lemma {:induction false} StrLessTransitive(a: string, b: string, c: string)
    requires StrLess(a, b) && StrLess(b, c)
    ensures StrLess(a, c)
  {
    if a != [] && a[0] == b[0] && b[0] == c[0] {
      StrLessTransitive(a[1..], b[1..], c[1..]);
    }
  }

  lemma {:induction false} StrLessTotal(a: string, b: string)
    requires a != b
    ensures StrLess(a, b) || StrLess(b, a)
  {
    if a != [] && b != [] && a[0] == b[0] {
      assert a == [a[0]] + a[1..] && b == [b[0]] + b[1..];
      StrLessTotal(a[1..], b[1..]);
    }
  }

  /** `a` sorts before `b` under the default `sort`. */
  predicate Before(a: int, b: int)
  {
    StrLess(JsNumberString(a), JsNumberString(b))
  }

  /** Before is a strict order, and total on different integers. */
  lemma BeforeIsStrictTotalOrder(a: int, b: int, c: int)
    ensures !Before(a, a)
    ensures Before(a, b) && Before(b, c) ==> Before(a, c)
    ensures a != b ==> Before(a, b) || Before(b, a)
  {
    StrLessIrreflexive(JsNumberString(a));
    if Before(a, b) && Before(b, c) {
      StrLessTransitive(JsNumberString(a), JsNumberString(b), JsNumberString(c));
    }
    if a != b {
      if JsNumberString(a) == JsNumberString(b) {
        JsNumberStringInjective(a, b);
      }
      StrLessTotal(JsNumberString(a), JsNumberString(b));
    }
  }

  /** `x` put into `s` before the first element it sorts before. */
  function Insert(x: int, s: seq<int>): (r: seq<int>)
    ensures multiset(r) == multiset(s) + multiset{x}
  {
    if s == [] then [x]
    else if Before(s[0], x) then
      assert s == [s[0]] + s[1..];
      [s[0]] + Insert(x, s[1..])
    else [x] + s
  }

  /** `keys.sort()`: insertion sort on the string order. */
  function SortByString(keys: seq<int>): (r: seq<int>)
    ensures multiset(r) == multiset(keys)
  {
    if keys == [] then []
    else
      assert keys == [keys[0]] + keys[1..];
      Insert(keys[0], SortByString(keys[1..]))
  }

  /** Each element sorts before the next. */
  predicate Sorted(s: seq<int>)
  {
    |s| <= 1 || (Before(s[0], s[1]) && Sorted(s[1..]))
  }

  predicate DistinctIds(s: seq<int>)
  {
    forall i, j :: 0 <= i < j < |s| ==> s[i] != s[j]
  }

  /** Inserting an element absent from a sorted sequence keeps it sorted. */
  lemma {:induction false} InsertKeepsSorted(x: int, s: seq<int>)
    requires Sorted(s) && x !in s
    ensures Sorted(Insert(x, s))
  {
    if s != [] {
      BeforeIsStrictTotalOrder(s[0], x, x);
      if Before(s[0], x) {
        var t := s[1..];
        assert x !in t;
        InsertKeepsSorted(x, t);
        if t != [] {
          assert Insert(x, t)[0] == x || Insert(x, t)[0] == t[0];
        }
      }
    }
  }

  /** With distinct keys, the sort's result is sorted. */
  lemma {:induction false} SortIsSorted(keys: seq<int>)
    requires DistinctIds(keys)
    ensures Sorted(SortByString(keys))
  {
    if keys != [] {
      var rest := keys[1..];
      SortIsSorted(rest);
      assert keys[0] !in rest;
      assert keys[0] !in multiset(SortByString(rest));
      InsertKeepsSorted(keys[0], SortByString(rest));
    }
  }

  /** The head of a sorted sequence sorts before every later element. */
  lemma {:induction false} SortedHeadIsLeast(s: seq<int>, j: nat)
    requires Sorted(s) && 0 < j < |s|
    ensures Before(s[0], s[j])
  {
    if j > 1 {
      SortedHeadIsLeast(s[1..], j - 1);
      BeforeIsStrictTotalOrder(s[0], s[1], s[j]);
    }
  }

  /** The number of elements of `s` that sort before `y`. */
  function CountBefore(s: seq<int>, y: int): (n: nat)
    ensures n <= |s|
  {
    if s == [] then 0 else (if Before(s[0], y) then 1 else 0) + CountBefore(s[1..], y)
  }

  lemma {:induction false} CountBeforeInsert(x: int, s: seq<int>, y: int)
    ensures CountBefore(Insert(x, s), y) == CountBefore(s, y) + (if Before(x, y) then 1 else 0)
  {
    if s != [] && Before(s[0], x) {
      CountBeforeInsert(x, s[1..], y);
    }
  }

  /** Sorting keeps the number of keys that sort before `y`. */
  lemma {:induction false} CountBeforeSort(keys: seq<int>, y: int)
    ensures CountBefore(SortByString(keys), y) == CountBefore(keys, y)
  {
    if keys != [] {
      CountBeforeSort(keys[1..], y);
      CountBeforeInsert(keys[0], SortByString(keys[1..]), y);
    }
  }

  /** In a sorted sequence an element's index is the number of elements before it. */
  lemma {:induction false} SortedIndexIsCount(s: seq<int>, i: nat)
    requires Sorted(s) && i < |s|
    ensures CountBefore(s, s[i]) == i
  {
    if i == 0 {
      NothingBeforeHead(s);
    } else {
      SortedHeadIsLeast(s, i);
      assert Sorted(s[1..]);
      assert s[1..][i - 1] == s[i];
      SortedIndexIsCount(s[1..], i - 1);
      assert CountBefore(s, s[i]) == 1 + CountBefore(s[1..], s[i]);
    }
  }

  lemma NothingBeforeHead(s: seq<int>)
    requires Sorted(s) && s != []
    ensures CountBefore(s, s[0]) == 0
  {
    forall j | 0 <= j < |s|
      ensures !Before(s[j], s[0])
    {
      BeforeIsStrictTotalOrder(s[0], s[j], s[0]);
      if j > 0 {
        SortedHeadIsLeast(s, j);
      }
    }
    NoneBefore(s, s[0]);
  }

  lemma {:induction false} NoneBefore(s: seq<int>, y: int)
    requires forall j :: 0 <= j < |s| ==> !Before(s[j], y)
    ensures CountBefore(s, y) == 0
  {
    if s != [] {
      NoneBefore(s[1..], y);
    }
  }

  /** `s.indexOf(x)`: the first index holding `x`, or -1. */
  function IndexOfId(s: seq<int>, x: int): (i: int)
    ensures -1 <= i < |s|
    ensures i == -1 <==> x !in s
    ensures 0 <= i ==> s[i] == x && x !in s[..i]
  {
    if s == [] then -1
    else if s[0] == x then 0
    else
      var j := IndexOfId(s[1..], x);
      if j == -1 then -1
      else
        assert s[..j + 1] == [s[0]] + s[1..][..j];
        j + 1
  }

  /** What is left of `a` after taking away `b` as often as it fits. */
  function Remainder(a: nat, b: nat): (r: nat)
    requires b > 0
    ensures r < b
    ensures a < b ==> r == a
    decreases a
  {
    if a < b then a else Remainder(a - b, b)
  }

  /** JavaScript's `%` on integers: the remainder of the magnitudes, with the sign of the dividend. */
  function JsRemainder(a: int, b: int): (r: int)
    requires b > 0
    ensures a >= 0 ==> 0 <= r < b
    ensures 0 <= a < b ==> r == a
    ensures -b < a < 0 ==> r == a
  {
    if a >= 0 then Remainder(a, b) else -(Remainder(-a, b) as int)
  }

  /** `getRouteColor`: the palette entry at the key's index in the sorted keys, wrapped at the palette's length; `undefined` (none) for a key that is not tracked. */
  function GetRouteColor(trackedKeys: seq<int>, routeId: int): Option<string>
  {
    var sorted := SortByString(trackedKeys);
    var index := IndexOfId(sorted, routeId);
    var k := JsRemainder(index, |RouteColors|);
    if 0 <= k < |RouteColors| then Some(RouteColors[k]) else None
  }

  /**
   * A tracked route's colour is fixed by its rank: the number of tracked
   * ids whose strings sort before its own, modulo the palette's length.
   */
  lemma ColorIsRank(trackedKeys: seq<int>, routeId: int)
    requires DistinctIds(trackedKeys) && routeId in trackedKeys
    ensures GetRouteColor(trackedKeys, routeId) == Some(RouteColors[Remainder(CountBefore(trackedKeys, routeId), |RouteColors|)])
  {
    var sorted := SortByString(trackedKeys);
    SortIsSorted(trackedKeys);
    assert routeId in multiset(sorted);
    var i := IndexOfId(sorted, routeId);
    SortedIndexIsCount(sorted, i);
    CountBeforeSort(trackedKeys, routeId);
  }

  /** An id that is not tracked has no colour: index -1 leaves the palette. */
  lemma UntrackedHasNoColor(trackedKeys: seq<int>, routeId: int)
    requires routeId !in trackedKeys
    ensures GetRouteColor(trackedKeys, routeId) == None
  {
    assert routeId !in multiset(SortByString(trackedKeys));
  }

  /** A tracked route's colour is the palette entry at its index in the sorted keys, modulo the palette's length. */
  lemma ColorAtSortedIndex(trackedKeys: seq<int>, routeId: int)
    requires routeId in trackedKeys
    ensures var i := IndexOfId(SortByString(trackedKeys), routeId);
      && 0 <= i < |trackedKeys|
      && GetRouteColor(trackedKeys, routeId) == Some(RouteColors[Remainder(i, |RouteColors|)])
      && (i < |RouteColors| ==> GetRouteColor(trackedKeys, routeId) == Some(RouteColors[i]))
  {
    var sorted := SortByString(trackedKeys);
    assert routeId in multiset(sorted);
    assert |sorted| == |multiset(sorted)| == |trackedKeys|;
  }

  /** The palette's colours are all different. */
  lemma PaletteIsDistinct(k: nat, l: nat)
    requires k < l < |RouteColors|
    ensures RouteColors[k] != RouteColors[l]
  {
  }

  /** While at most ten routes are tracked, different routes get different colours. */
  lemma ColorsDifferUpToTen(trackedKeys: seq<int>, a: int, b: int)
    requires |trackedKeys| <= |RouteColors|
    requires a in trackedKeys && b in trackedKeys && a != b
    ensures GetRouteColor(trackedKeys, a) != GetRouteColor(trackedKeys, b)
  {
    var sorted := SortByString(trackedKeys);
    ColorAtSortedIndex(trackedKeys, a);
    ColorAtSortedIndex(trackedKeys, b);
    var i, j := IndexOfId(sorted, a), IndexOfId(sorted, b);
    assert i != j;
    if i < j {
      PaletteIsDistinct(i, j);
    } else {
      PaletteIsDistinct(j, i);
    }
  }
}
