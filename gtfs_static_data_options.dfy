/**
 * The fifteen static GTFS files the program knows (the `GtfsStaticDataFile`
 * enum) and the archive entry each one is read from (`GetFileName`).
 */
module GtfsStaticDataOptions {
  import opened Wrappers

  datatype GtfsStaticDataFile =
    | AgencyFile
    | StopsFile
    | RoutesFile
    | TripsFile
    | StopTimesFile
    | CalendarFile
    | CalendarDatesFile
    | FareAttributesFile
    | FareRulesFile
    | ShapesFile
    | FrequenciesFile
    | TransfersFile
    | PathwaysFile
    | LevelsFile
    | FeedInfoFile

  datatype OptionsError = ArgumentOutOfRange(value: int)

  /** The underlying value of each member, in declaration order from 0. */
  function Ordinal(file: GtfsStaticDataFile): (n: nat)
    ensures n < 15
  {
    match file
    case AgencyFile => 0
    case StopsFile => 1
    case RoutesFile => 2
    case TripsFile => 3
    case StopTimesFile => 4
    case CalendarFile => 5
    case CalendarDatesFile => 6
    case FareAttributesFile => 7
    case FareRulesFile => 8
    case ShapesFile => 9
    case FrequenciesFile => 10
    case TransfersFile => 11
    case PathwaysFile => 12
    case LevelsFile => 13
    case FeedInfoFile => 14
  }

  /** The member whose underlying value is `value`, if one is declared. */
  function FromValue(value: int): (r: Option<GtfsStaticDataFile>)
    ensures r.Some? <==> 0 <= value < 15
    ensures r.Some? ==> Ordinal(r.value) == value
  {
    if value == 0 then Some(AgencyFile)
    else if value == 1 then Some(StopsFile)
    else if value == 2 then Some(RoutesFile)
    else if value == 3 then Some(TripsFile)
    else if value == 4 then Some(StopTimesFile)
    else if value == 5 then Some(CalendarFile)
    else if value == 6 then Some(CalendarDatesFile)
    else if value == 7 then Some(FareAttributesFile)
    else if value == 8 then Some(FareRulesFile)
    else if value == 9 then Some(ShapesFile)
    else if value == 10 then Some(FrequenciesFile)
    else if value == 11 then Some(TransfersFile)
    else if value == 12 then Some(PathwaysFile)
    else if value == 13 then Some(LevelsFile)
    else if value == 14 then Some(FeedInfoFile)
    else None
  }

  /** The member's name, which is what string interpolation of an enum value prints. */
  function MemberName(file: GtfsStaticDataFile): string
  {
    match file
    case AgencyFile => "AgencyFile"
    case StopsFile => "StopsFile"
    case RoutesFile => "RoutesFile"
    case TripsFile => "TripsFile"
    case StopTimesFile => "StopTimesFile"
    case CalendarFile => "CalendarFile"
    case CalendarDatesFile => "CalendarDatesFile"
    case FareAttributesFile => "FareAttributesFile"
    case FareRulesFile => "FareRulesFile"
    case ShapesFile => "ShapesFile"
    case FrequenciesFile => "FrequenciesFile"
    case TransfersFile => "TransfersFile"
    case PathwaysFile => "PathwaysFile"
    case LevelsFile => "LevelsFile"
    case FeedInfoFile => "FeedInfoFile"
  }

  /** `GetFileName` on a declared member: the archive entry holding that file. */
  function GetFileName(file: GtfsStaticDataFile): string
  {
    match file
    case AgencyFile => "agency.txt"
    case StopsFile => "stops.txt"
    case RoutesFile => "routes.txt"
    case TripsFile => "trips.txt"
    case StopTimesFile => "stop_times.txt"
    case CalendarFile => "calendar.txt"
    case CalendarDatesFile => "calendar_dates.txt"
    case FareAttributesFile => "fare_attributes.txt"
    case FareRulesFile => "fare_rules.txt"
    case ShapesFile => "shapes.txt"
    case FrequenciesFile => "frequencies.txt"
    case TransfersFile => "transfers.txt"
    case PathwaysFile => "pathways.txt"
    case LevelsFile => "levels.txt"
    case FeedInfoFile => "feed_info.txt"
  }

  /**
   * `GetFileName` on any value of the enum's underlying type: a value that is
   * not a declared member reaches the discard arm and throws.
   */
  function GetFileNameOfValue(value: int): (r: Result<string, OptionsError>)
    ensures 0 <= value < 15 <==> r.Success?
    ensures r.Failure? ==> r.error == ArgumentOutOfRange(value)
  {
    match FromValue(value)
    case Some(file) => Success(GetFileName(file))
    case None => Failure(ArgumentOutOfRange(value))
  }

  /** Inverse of `GetFileName`: the member whose archive entry is `name`. */
  function FileOfName(name: string): Option<GtfsStaticDataFile>
  {
    if name == "agency.txt" then Some(AgencyFile)
    else if name == "stops.txt" then Some(StopsFile)
    else if name == "routes.txt" then Some(RoutesFile)
    else if name == "trips.txt" then Some(TripsFile)
    else if name == "stop_times.txt" then Some(StopTimesFile)
    else if name == "calendar.txt" then Some(CalendarFile)
    else if name == "calendar_dates.txt" then Some(CalendarDatesFile)
    else if name == "fare_attributes.txt" then Some(FareAttributesFile)
    else if name == "fare_rules.txt" then Some(FareRulesFile)
    else if name == "shapes.txt" then Some(ShapesFile)
    else if name == "frequencies.txt" then Some(FrequenciesFile)
    else if name == "transfers.txt" then Some(TransfersFile)
    else if name == "pathways.txt" then Some(PathwaysFile)
    else if name == "levels.txt" then Some(LevelsFile)
    else if name == "feed_info.txt" then Some(FeedInfoFile)
    else None
  }

  /** Every member's file name maps back to that member. */
  lemma FileNameRoundTrip(file: GtfsStaticDataFile)
    ensures FileOfName(GetFileName(file)) == Some(file)
  {
  }

  /** Distinct members have distinct file names. */
  lemma FileNameInjective(a: GtfsStaticDataFile, b: GtfsStaticDataFile)
    requires GetFileName(a) == GetFileName(b)
    ensures a == b
  {
    FileNameRoundTrip(a);
    FileNameRoundTrip(b);
  }

  /** Every declared value has a file name: the switch is total over the members. */
  lemma GetFileNameTotal(value: int)
    requires 0 <= value < 15
    ensures GetFileNameOfValue(value).Success?
    ensures FromValue(value).Some? && GetFileNameOfValue(value).value == GetFileName(FromValue(value).value)
  {
  }

  predicate IsSnakeCaseChar(c: char)
  {
    'a' <= c <= 'z' || c == '_'
  }

  /** A non-empty run of lower-case ASCII letters and underscores. */
  predicate IsSnakeCase(stem: string)
  {
    |stem| > 0 && forall i :: 0 <= i < |stem| ==> IsSnakeCaseChar(stem[i])
  }

  /** The archive entry name without its extension. */
  function FileStem(file: GtfsStaticDataFile): string
  {
    match file
    case AgencyFile => "agency"
    case StopsFile => "stops"
    case RoutesFile => "routes"
    case TripsFile => "trips"
    case StopTimesFile => "stop_times"
    case CalendarFile => "calendar"
    case CalendarDatesFile => "calendar_dates"
    case FareAttributesFile => "fare_attributes"
    case FareRulesFile => "fare_rules"
    case ShapesFile => "shapes"
    case FrequenciesFile => "frequencies"
    case TransfersFile => "transfers"
    case PathwaysFile => "pathways"
    case LevelsFile => "levels"
    case FeedInfoFile => "feed_info"
  }

  lemma StemIsSnakeCase(stem: string)
    requires stem in {"agency", "stops", "routes", "trips", "stop_times", "calendar", "calendar_dates", "fare_attributes", "fare_rules", "shapes", "frequencies", "transfers", "pathways", "levels", "feed_info"}
    ensures IsSnakeCase(stem)
  {
    forall i | 0 <= i < |stem|
      ensures IsSnakeCaseChar(stem[i])
    {
    }
  }

  /** Every file name is a lower-case snake_case stem followed by ".txt". */
  lemma FileNamesAreTxt(file: GtfsStaticDataFile)
    ensures GetFileName(file) == FileStem(file) + ".txt"
    ensures IsSnakeCase(FileStem(file))
  {
    StemIsSnakeCase(FileStem(file));
  }

  /** Inverse of `MemberName`: the member spelled `name`. */
  function FileOfMemberName(name: string): Option<GtfsStaticDataFile>
  {
    if name == "AgencyFile" then Some(AgencyFile)
    else if name == "StopsFile" then Some(StopsFile)
    else if name == "RoutesFile" then Some(RoutesFile)
    else if name == "TripsFile" then Some(TripsFile)
    else if name == "StopTimesFile" then Some(StopTimesFile)
    else if name == "CalendarFile" then Some(CalendarFile)
    else if name == "CalendarDatesFile" then Some(CalendarDatesFile)
    else if name == "FareAttributesFile" then Some(FareAttributesFile)
    else if name == "FareRulesFile" then Some(FareRulesFile)
    else if name == "ShapesFile" then Some(ShapesFile)
    else if name == "FrequenciesFile" then Some(FrequenciesFile)
    else if name == "TransfersFile" then Some(TransfersFile)
    else if name == "PathwaysFile" then Some(PathwaysFile)
    else if name == "LevelsFile" then Some(LevelsFile)
    else if name == "FeedInfoFile" then Some(FeedInfoFile)
    else None
  }

  /** Every member name maps back to its member, so distinct members have distinct names. */
  lemma MemberNameRoundTrip(file: GtfsStaticDataFile)
    ensures FileOfMemberName(MemberName(file)) == Some(file)
    ensures 'A' <= MemberName(file)[0] <= 'Z'
  {
  }

  /** Distinct members have distinct member names (so distinct static cache keys). */
  lemma MemberNameInjective(a: GtfsStaticDataFile, b: GtfsStaticDataFile)
    requires MemberName(a) == MemberName(b)
    ensures a == b
  {
    MemberNameRoundTrip(a);
    MemberNameRoundTrip(b);
  }
}
