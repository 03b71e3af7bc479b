/**
 * validate_record: a fail-fast sequence of checks on one CSV row. The first
 * failing check decides the single issue reported; a row that passes every
 * check is valid with no issue.
 */
module Validator {
  import opened TripRecord

  /** The columns that must be present and non-blank, in the order they are checked. */
  const REQUIRED_FIELDS: seq<string> := [
    "id", "vendor_id", "pickup_datetime", "dropoff_datetime", "passenger_count",
    "pickup_longitude", "pickup_latitude", "dropoff_longitude", "dropoff_latitude",
    "trip_duration"
  ]

  /** `not row.get(field) or row[field].strip() == ''` */
  predicate Missing(row: Row, field: string) {
    field !in row || IsBlank(row[field])
  }

  ghost predicate NothingMissing(row: Row) {
    forall k :: 0 <= k < |REQUIRED_FIELDS| ==> !Missing(row, REQUIRED_FIELDS[k])
  }

  /** The position of the first missing field, if any. */
  function FirstMissing(row: Row, fields: seq<string>): (r: Option<nat>)
    ensures r.Some? ==> r.value < |fields| && Missing(row, fields[r.value])
                        && forall k :: 0 <= k < r.value ==> !Missing(row, fields[k])
    ensures r.None? <==> forall k :: 0 <= k < |fields| ==> !Missing(row, fields[k])
  {
    if |fields| == 0 then None
    else if Missing(row, fields[0]) then Some(0)
    else
      match FirstMissing(row, fields[1..])
      case None => None
      case Some(k) => Some(k + 1)
  }

  /** The result of `validate_record`: `(is_valid, issues)`. */
  datatype Validation = Validation(isValid: bool, issues: seq<Issue>)

  /** The outcome of one check: go on with a value, or stop with an issue. */
  datatype Gate<V> = Pass(value: V) | Reject(issue: Issue) {
    predicate IsFailure() { Reject? }
    function PropagateFailure<U>(): Gate<U> requires Reject? { Reject(issue) }
    function Extract(): V requires Pass? { value }
  }

  /** A parse inside the `try`: a ValueError or TypeError becomes an invalid_datetime issue. */
  function Parse<T>(p: Parsed<T>): Gate<T> {
    match p
    case Ok(v) => Pass(v)
    case Err(message) => Reject(ParseIssue(message))
  }

  function ParseIssue(message: string): Issue {
    Issue(InvalidDatetime, "Parse error: " + message, "datetime", "")
  }

  function Require(condition: bool, issue: Issue): Gate<()> {
    if condition then Pass(()) else Reject(issue)
  }

  /** The inclusive NYC bounding box. */
  predicate InNyc(lon: real, lat: real) {
    NYC_LON_MIN <= lon <= NYC_LON_MAX && NYC_LAT_MIN <= lat <= NYC_LAT_MAX
  }

  predicate SameLocation(lon1: real, lat1: real, lon2: real, lat2: real) {
    Abs(lon1 - lon2) < 0.0001 && Abs(lat1 - lat2) < 0.0001
  }

  predicate FieldsPresent(row: Row) {
    && "id" in row && "vendor_id" in row && "pickup_datetime" in row && "dropoff_datetime" in row
    && "passenger_count" in row && "pickup_longitude" in row && "pickup_latitude" in row
    && "dropoff_longitude" in row && "dropoff_latitude" in row && "trip_duration" in row
  }

  /** The checks inside the `try` block, in source order. */
  function CheckTrip(row: Row, b: Builtins): Gate<()>
    requires FieldsPresent(row)
  {
    var pickupLon :- Parse(b.parseFloat(row["pickup_longitude"]));
    var pickupLat :- Parse(b.parseFloat(row["pickup_latitude"]));
    var dropoffLon :- Parse(b.parseFloat(row["dropoff_longitude"]));
    var dropoffLat :- Parse(b.parseFloat(row["dropoff_latitude"]));
    var _ :- Require(InNyc(pickupLon, pickupLat),
      Issue(InvalidCoords, "Pickup outside NYC", "pickup_coords", b.floatText(pickupLon) + "," + b.floatText(pickupLat)));
    var _ :- Require(InNyc(dropoffLon, dropoffLat),
      Issue(InvalidCoords, "Dropoff outside NYC", "dropoff_coords", b.floatText(dropoffLon) + "," + b.floatText(dropoffLat)));
    var _ :- Require(!SameLocation(pickupLon, pickupLat, dropoffLon, dropoffLat),
      Issue(ZeroDistance, "Pickup and dropoff same location", "coordinates", ""));
    var duration :- Parse(b.parseInt(row["trip_duration"]));
    var _ :- Require(duration > 0,
      Issue(NegativeDuration, "Duration is negative or zero", "trip_duration", IntText(duration)));
    var _ :- Require(duration >= MIN_TRIP_DURATION,
      Issue(InvalidDuration, "Duration too short: " + IntText(duration) + "s", "trip_duration", IntText(duration)));
    var _ :- Require(duration <= MAX_TRIP_DURATION,
      Issue(InvalidDuration, "Duration too long: " + IntText(duration) + "s", "trip_duration", IntText(duration)));
    var passengerCount :- Parse(b.parseInt(row["passenger_count"]));
    var _ :- Require(MIN_PASSENGER_COUNT <= passengerCount <= MAX_PASSENGER_COUNT,
      Issue(InvalidPassengerCount, "Invalid count: " + IntText(passengerCount), "passenger_count", IntText(passengerCount)));
    var pickup :- Parse(b.parseDatetime(row["pickup_datetime"]));
    var dropoff :- Parse(b.parseDatetime(row["dropoff_datetime"]));
    var _ :- Require(dropoff.seconds > pickup.seconds,
      Issue(InvalidDatetime, "Dropoff before or equal to pickup", "datetime", ""));
    var actual := dropoff.seconds - pickup.seconds;
    var _ :- Require(Abs((actual - duration) as real) <= 10.0,
      Issue(InvalidDuration, "Duration mismatch with timestamps", "trip_duration",
            "recorded:" + IntText(duration) + ", actual:" + b.floatText(actual as real)));
    Pass(())
  }

  /** validate_record(row): valid with no issue, or invalid with exactly one issue. */
  function ValidateRecord(row: Row, b: Builtins): (v: Validation)
    ensures v.isValid <==> v.issues == []
    ensures v.isValid || |v.issues| == 1
  {
    match FirstMissing(row, REQUIRED_FIELDS)
    case Some(k) =>
      Validation(false, [Issue(MissingValues, "Missing " + REQUIRED_FIELDS[k], REQUIRED_FIELDS[k], "")])
    case None =>
      NothingMissingMeansPresent(row);
      match CheckTrip(row, b)
      case Pass(_) => Validation(true, [])
      case Reject(issue) => Validation(false, [issue])
  }

  /**
   * An independent statement of what a valid row is: every required field is
   * present and non-blank, every number and timestamp parses, both ends lie in
   * the NYC box and apart, the duration lies in [60, 86400] seconds and within
   * 10 seconds of the timestamps' difference, which is positive, and the
   * passenger count lies in [1, 9].
   */
  ghost predicate Acceptable(row: Row, b: Builtins) {
    && NothingMissing(row)
    && FieldsPresent(row)
    && b.parseFloat(row["pickup_longitude"]).Ok?
    && b.parseFloat(row["pickup_latitude"]).Ok?
    && b.parseFloat(row["dropoff_longitude"]).Ok?
    && b.parseFloat(row["dropoff_latitude"]).Ok?
    && b.parseInt(row["trip_duration"]).Ok?
    && b.parseInt(row["passenger_count"]).Ok?
    && b.parseDatetime(row["pickup_datetime"]).Ok?
    && b.parseDatetime(row["dropoff_datetime"]).Ok?
    && var pickupLon := b.parseFloat(row["pickup_longitude"]).value;
       var pickupLat := b.parseFloat(row["pickup_latitude"]).value;
       var dropoffLon := b.parseFloat(row["dropoff_longitude"]).value;
       var dropoffLat := b.parseFloat(row["dropoff_latitude"]).value;
       var duration := b.parseInt(row["trip_duration"]).value;
       var passengerCount := b.parseInt(row["passenger_count"]).value;
       var pickup := b.parseDatetime(row["pickup_datetime"]).value;
       var dropoff := b.parseDatetime(row["dropoff_datetime"]).value;
       && InNyc(pickupLon, pickupLat)
       && InNyc(dropoffLon, dropoffLat)
       && !SameLocation(pickupLon, pickupLat, dropoffLon, dropoffLat)
       && MIN_TRIP_DURATION <= duration <= MAX_TRIP_DURATION
       && MIN_PASSENGER_COUNT <= passengerCount <= MAX_PASSENGER_COUNT
       && pickup.seconds < dropoff.seconds
       && Abs((dropoff.seconds - pickup.seconds - duration) as real) <= 10.0
  }

  lemma NothingMissingMeansPresent(row: Row)
    requires NothingMissing(row)
    ensures FieldsPresent(row)
  {
    assert !Missing(row, REQUIRED_FIELDS[0]) && !Missing(row, REQUIRED_FIELDS[1]);
    assert !Missing(row, REQUIRED_FIELDS[2]) && !Missing(row, REQUIRED_FIELDS[3]);
    assert !Missing(row, REQUIRED_FIELDS[4]) && !Missing(row, REQUIRED_FIELDS[5]);
    assert !Missing(row, REQUIRED_FIELDS[6]) && !Missing(row, REQUIRED_FIELDS[7]);
    assert !Missing(row, REQUIRED_FIELDS[8]) && !Missing(row, REQUIRED_FIELDS[9]);
  }

  /** A row is valid exactly when it is acceptable. */
  lemma ValidIffAcceptable(row: Row, b: Builtins)
    ensures ValidateRecord(row, b).isValid <==> Acceptable(row, b)
  {
    if FirstMissing(row, REQUIRED_FIELDS).None? {
      NothingMissingMeansPresent(row);
    }
  }

  /**
   * A missing or blank field is reported as missing_values naming the first
   * such field in list order, whatever the rest of the row holds.
   */
  lemma MissingFieldReportedFirst(row: Row, b: Builtins, k: nat)
    requires k < |REQUIRED_FIELDS| && Missing(row, REQUIRED_FIELDS[k])
    requires forall j :: 0 <= j < k ==> !Missing(row, REQUIRED_FIELDS[j])
    ensures ValidateRecord(row, b)
            == Validation(false, [Issue(MissingValues, "Missing " + REQUIRED_FIELDS[k], REQUIRED_FIELDS[k], "")])
  {
    var r := FirstMissing(row, REQUIRED_FIELDS);
    assert r.Some?;
    assert !(r.value < k);
    assert !(r.value > k);
  }

  /** The parsed coordinates of a row whose fields are all present. */
  predicate CoordinatesParse(row: Row, b: Builtins, pickupLon: real, pickupLat: real, dropoffLon: real, dropoffLat: real)
    requires FieldsPresent(row)
  {
    && b.parseFloat(row["pickup_longitude"]) == Ok(pickupLon)
    && b.parseFloat(row["pickup_latitude"]) == Ok(pickupLat)
    && b.parseFloat(row["dropoff_longitude"]) == Ok(dropoffLon)
    && b.parseFloat(row["dropoff_latitude"]) == Ok(dropoffLat)
  }

  /**
   * The pickup box is checked before the dropoff box, both inclusive; a
   * failure is one invalid_coords issue naming the end that is out.
   */
  lemma CoordinateChecks(row: Row, b: Builtins, pickupLon: real, pickupLat: real, dropoffLon: real, dropoffLat: real)
    requires NothingMissing(row) && FieldsPresent(row)
    requires CoordinatesParse(row, b, pickupLon, pickupLat, dropoffLon, dropoffLat)
    ensures !InNyc(pickupLon, pickupLat) ==>
              ValidateRecord(row, b) == Validation(false, [Issue(InvalidCoords, "Pickup outside NYC", "pickup_coords",
                                                   b.floatText(pickupLon) + "," + b.floatText(pickupLat))])
    ensures InNyc(pickupLon, pickupLat) && !InNyc(dropoffLon, dropoffLat) ==>
              ValidateRecord(row, b) == Validation(false, [Issue(InvalidCoords, "Dropoff outside NYC", "dropoff_coords",
                                                   b.floatText(dropoffLon) + "," + b.floatText(dropoffLat))])
    ensures InNyc(pickupLon, pickupLat) && InNyc(dropoffLon, dropoffLat)
            && SameLocation(pickupLon, pickupLat, dropoffLon, dropoffLat) ==>
              ValidateRecord(row, b) == Validation(false, [Issue(ZeroDistance, "Pickup and dropoff same location", "coordinates", "")])
  {
  }

  /** The checks that follow the coordinate checks, on a row whose coordinates pass them. */
  ghost predicate CoordinatesPass(row: Row, b: Builtins) {
    && NothingMissing(row)
    && FieldsPresent(row)
    && exists pickupLon, pickupLat, dropoffLon, dropoffLat ::
         && CoordinatesParse(row, b, pickupLon, pickupLat, dropoffLon, dropoffLat)
         && InNyc(pickupLon, pickupLat) && InNyc(dropoffLon, dropoffLat)
         && !SameLocation(pickupLon, pickupLat, dropoffLon, dropoffLat)
  }

  /**
   * Duration, then passenger count: duration <= 0 is negative_duration,
   * below 60 or above 86400 seconds invalid_duration, and only then is a
   * passenger count outside [1, 9] invalid_passenger_count. An unparsable
   * duration is reported as invalid_datetime.
   */
  lemma DurationAndPassengerChecks(row: Row, b: Builtins)
    requires CoordinatesPass(row, b)
    ensures b.parseInt(row["trip_duration"]).Err? ==>
              ValidateRecord(row, b) == Validation(false, [ParseIssue(b.parseInt(row["trip_duration"]).message)])
    ensures b.parseInt(row["trip_duration"]).Ok? ==>
              var d := b.parseInt(row["trip_duration"]).value;
              && (d <= 0 ==>
                    (ValidateRecord(row, b)
                     == Validation(false, [Issue(NegativeDuration, "Duration is negative or zero", "trip_duration", IntText(d))])))
              && (0 < d < MIN_TRIP_DURATION ==>
                    (ValidateRecord(row, b)
                     == Validation(false, [Issue(InvalidDuration, "Duration too short: " + IntText(d) + "s", "trip_duration", IntText(d))])))
              && (d > MAX_TRIP_DURATION ==>
                    (ValidateRecord(row, b)
                     == Validation(false, [Issue(InvalidDuration, "Duration too long: " + IntText(d) + "s", "trip_duration", IntText(d))])))
    ensures b.parseInt(row["trip_duration"]).Ok? && MIN_TRIP_DURATION <= b.parseInt(row["trip_duration"]).value <= MAX_TRIP_DURATION
            && b.parseInt(row["passenger_count"]).Ok? ==>
              var p := b.parseInt(row["passenger_count"]).value;
              !(MIN_PASSENGER_COUNT <= p <= MAX_PASSENGER_COUNT) ==>
                ValidateRecord(row, b)
                  == Validation(false, [Issue(InvalidPassengerCount, "Invalid count: " + IntText(p), "passenger_count", IntText(p))])
  {
    var pickupLon, pickupLat, dropoffLon, dropoffLat :|
      && CoordinatesParse(row, b, pickupLon, pickupLat, dropoffLon, dropoffLat)
      && InNyc(pickupLon, pickupLat) && InNyc(dropoffLon, dropoffLat)
      && !SameLocation(pickupLon, pickupLat, dropoffLon, dropoffLat);
  }

  /** The rows that pass every check before the timestamps are parsed. */
  ghost predicate CountsPass(row: Row, b: Builtins) {
    && CoordinatesPass(row, b)
    && b.parseInt(row["trip_duration"]).Ok?
    && MIN_TRIP_DURATION <= b.parseInt(row["trip_duration"]).value <= MAX_TRIP_DURATION
    && b.parseInt(row["passenger_count"]).Ok?
    && MIN_PASSENGER_COUNT <= b.parseInt(row["passenger_count"]).value <= MAX_PASSENGER_COUNT
  }

  /**
   * The timestamp checks come last: a dropoff not after the pickup is
   * invalid_datetime, a recorded duration more than 10 seconds off the
   * timestamps' difference is invalid_duration, and passing both makes the
   * row valid.
   */
  lemma TimestampChecks(row: Row, b: Builtins, pickup: Timestamp, dropoff: Timestamp)
    requires CountsPass(row, b)
    requires b.parseDatetime(row["pickup_datetime"]) == Ok(pickup)
    requires b.parseDatetime(row["dropoff_datetime"]) == Ok(dropoff)
    ensures dropoff.seconds <= pickup.seconds ==>
              ValidateRecord(row, b) == Validation(false, [Issue(InvalidDatetime, "Dropoff before or equal to pickup", "datetime", "")])
    ensures var d := b.parseInt(row["trip_duration"]).value;
            var actual := dropoff.seconds - pickup.seconds;
            actual > 0 && Abs((actual - d) as real) > 10.0 ==>
              ValidateRecord(row, b) == Validation(false, [Issue(InvalidDuration, "Duration mismatch with timestamps", "trip_duration",
                                                   "recorded:" + IntText(d) + ", actual:" + b.floatText(actual as real))])
    ensures var d := b.parseInt(row["trip_duration"]).value;
            var actual := dropoff.seconds - pickup.seconds;
            actual > 0 && Abs((actual - d) as real) <= 10.0 ==> ValidateRecord(row, b) == Validation(true, [])
  {
    var pickupLon, pickupLat, dropoffLon, dropoffLat :|
      && CoordinatesParse(row, b, pickupLon, pickupLat, dropoffLon, dropoffLat)
      && InNyc(pickupLon, pickupLat) && InNyc(dropoffLon, dropoffLat)
      && !SameLocation(pickupLon, pickupLat, dropoffLon, dropoffLat);
  }

  /**
   * An unparsable coordinate is reported as invalid_datetime with the parser's
   * message; the four are parsed in the order pickup longitude, pickup
   * latitude, dropoff longitude, dropoff latitude, and the first that fails is
   * the one reported.
   */
  lemma ParseErrorIsDatetimeIssue(row: Row, b: Builtins)
    requires NothingMissing(row) && FieldsPresent(row)
    ensures var p := b.parseFloat(row["pickup_longitude"]);
            p.Err? ==> ValidateRecord(row, b) == Validation(false, [ParseIssue(p.message)])
    ensures var p := b.parseFloat(row["pickup_latitude"]);
            b.parseFloat(row["pickup_longitude"]).Ok? && p.Err? ==>
              ValidateRecord(row, b) == Validation(false, [ParseIssue(p.message)])
    ensures var p := b.parseFloat(row["dropoff_longitude"]);
            b.parseFloat(row["pickup_longitude"]).Ok? && b.parseFloat(row["pickup_latitude"]).Ok? && p.Err? ==>
              ValidateRecord(row, b) == Validation(false, [ParseIssue(p.message)])
    ensures var p := b.parseFloat(row["dropoff_latitude"]);
            b.parseFloat(row["pickup_longitude"]).Ok? && b.parseFloat(row["pickup_latitude"]).Ok?
            && b.parseFloat(row["dropoff_longitude"]).Ok? && p.Err? ==>
              ValidateRecord(row, b) == Validation(false, [ParseIssue(p.message)])
  {
  }

  /**
   * An unparsable passenger count, parsed once the duration is known to lie
   * in [60, 86400] seconds, is reported as invalid_datetime with the parser's
   * message.
   */
  lemma PassengerCountParseError(row: Row, b: Builtins)
    requires CoordinatesPass(row, b)
    requires b.parseInt(row["trip_duration"]).Ok?
    requires MIN_TRIP_DURATION <= b.parseInt(row["trip_duration"]).value <= MAX_TRIP_DURATION
    requires b.parseInt(row["passenger_count"]).Err?
    ensures ValidateRecord(row, b) == Validation(false, [ParseIssue(b.parseInt(row["passenger_count"]).message)])
  {
    var pickupLon, pickupLat, dropoffLon, dropoffLat :|
      && CoordinatesParse(row, b, pickupLon, pickupLat, dropoffLon, dropoffLat)
      && InNyc(pickupLon, pickupLat) && InNyc(dropoffLon, dropoffLat)
      && !SameLocation(pickupLon, pickupLat, dropoffLon, dropoffLat);
  }

  /**
   * The timestamps are parsed after every count check passes, pickup first;
   * the first that does not parse is reported as invalid_datetime with the
   * parser's message.
   */
  lemma TimestampParseErrors(row: Row, b: Builtins)
    requires CountsPass(row, b)
    ensures var p := b.parseDatetime(row["pickup_datetime"]);
            p.Err? ==> ValidateRecord(row, b) == Validation(false, [ParseIssue(p.message)])
    ensures var p := b.parseDatetime(row["dropoff_datetime"]);
            b.parseDatetime(row["pickup_datetime"]).Ok? && p.Err? ==>
              ValidateRecord(row, b) == Validation(false, [ParseIssue(p.message)])
  {
    var pickupLon, pickupLat, dropoffLon, dropoffLat :|
      && CoordinatesParse(row, b, pickupLon, pickupLat, dropoffLon, dropoffLat)
      && InNyc(pickupLon, pickupLat) && InNyc(dropoffLon, dropoffLat)
      && !SameLocation(pickupLon, pickupLat, dropoffLon, dropoffLat);
  }
}
