/**
 * The values the ingestion pipeline works on: CSV rows, parse results, the
 * library routines it calls but that are not modelled, data-quality issues
 * and the pipeline's thresholds.
 */
module TripRecord {

  datatype Option<T> = None | Some(value: T)

  /**
   * A row of `csv.DictReader`: column name to cell text. A column the row is
   * too short to fill holds Python's None; here it is simply absent.
   */
  type Row = map<string, string>

  /** `row['id']`: the cell text, or None for a row too short to have one. */
  type RowId = Option<string>

  function IdOf(row: Row): RowId {
    if "id" in row then Some(row["id"]) else None
  }

  /** The outcome of `float(...)`, `int(...)` or `datetime.strptime(...)`: a value, or the message of the ValueError/TypeError. */
  datatype Parsed<T> = Ok(value: T) | Err(message: string)

  /**
   * A `'%Y-%m-%d %H:%M:%S'` timestamp as parsed: seconds on a common time
   * line, and the calendar fields read from it (`weekday` 0 = Monday).
   */
  datatype Timestamp = Timestamp(seconds: int, hour: int, weekday: int, day: int, month: int)

  /**
   * The library routines the pipeline calls: number and date parsing,
   * haversine distance in miles, `round(x, digits)`, and the text of a float
   * as `str`/`f'{x}'` and as `f'{x:.2f}'` print it.
   */
  datatype Builtins = Builtins(
    parseFloat: string -> Parsed<real>,
    parseInt: string -> Parsed<int>,
    parseDatetime: string -> Parsed<Timestamp>,
    haversine: (real, real, real, real) -> real,
    roundTo: (real, nat) -> real,
    floatText: real -> string,
    fixed2Text: real -> string)

  /** The `issue_type` values written to the data-quality log. */
  datatype IssueKind =
    | MissingValues
    | InvalidCoords
    | ZeroDistance
    | NegativeDuration
    | InvalidDuration
    | InvalidPassengerCount
    | InvalidDatetime
    | DuplicateRecord
    | OutlierDistance
    | OutlierSpeed
  {
    function Name(): string {
      match this
      case MissingValues => "missing_values"
      case InvalidCoords => "invalid_coords"
      case ZeroDistance => "zero_distance"
      case NegativeDuration => "negative_duration"
      case InvalidDuration => "invalid_duration"
      case InvalidPassengerCount => "invalid_passenger_count"
      case InvalidDatetime => "invalid_datetime"
      case DuplicateRecord => "duplicate_record"
      case OutlierDistance => "outlier_distance"
      case OutlierSpeed => "outlier_speed"
    }
  }

  /** An `(issue_type, description, field_name, value)` tuple. */
  datatype Issue = Issue(kind: IssueKind, description: string, field: string, value: string)

  // Thresholds of backend/data_processor.py.
  const BATCH_SIZE: nat := 1000
  const MIN_TRIP_DURATION: int := 60
  const MAX_TRIP_DURATION: int := 86400
  const MIN_PASSENGER_COUNT: int := 1
  const MAX_PASSENGER_COUNT: int := 9
  const NYC_LAT_MIN: real := 40.4774
  const NYC_LAT_MAX: real := 40.9176
  const NYC_LON_MIN: real := -74.2591
  const NYC_LON_MAX: real := -73.7004
  const MIN_SPEED: real := 0.5
  const MAX_SPEED: real := 100.0
  const MAX_TRIP_DISTANCE: real := 100.0
  /** The local cap on valid records in process_and_load_data. */
  const MAX_VALID_RECORDS: nat := 300

  /** `str.isspace()` for one character: the Unicode whitespace characters. */
  predicate IsSpace(c: char) {
    var n := c as int;
    || 0x09 <= n <= 0x0D
    || 0x1C <= n <= 0x20
    || n == 0x85 || n == 0xA0 || n == 0x1680
    || 0x2000 <= n <= 0x200A
    || n == 0x2028 || n == 0x2029 || n == 0x202F || n == 0x205F || n == 0x3000
  }

  /** `s.strip() == ''` */
  predicate IsBlank(s: string) {
    forall i :: 0 <= i < |s| ==> IsSpace(s[i])
  }

  function Abs(x: real): real {
    if x < 0.0 then -x else x
  }

  function DigitChar(d: nat): char
    requires d < 10
  {
    "0123456789"[d]
  }

  function DigitValue(c: char): int {
    c as int - '0' as int
  }

  /** The decimal digits of `n`, most significant first, without leading zeros. */
  function Digits(n: nat): (s: string)
    ensures |s| > 0
    ensures forall i :: 0 <= i < |s| ==> '0' <= s[i] <= '9'
    ensures |s| > 1 ==> s[0] != '0'
  {
    if n < 10 then [DigitChar(n)] else Digits(n / 10) + [DigitChar(n % 10)]
  }

  /** The number a string of decimal digits denotes. */
  function DecimalValue(s: string): int {
    if |s| == 0 then 0 else DecimalValue(s[..|s| - 1]) * 10 + DigitValue(s[|s| - 1])
  }

  /** `str(n)` for an int. */
  function IntText(n: int): string {
    if n < 0 then "-" + Digits(-n) else Digits(n)
  }

  /** Reading the digits back gives the number. */
  lemma {:induction false} DigitsRoundTrip(n: nat)
    ensures DecimalValue(Digits(n)) == n
  {
    if n >= 10 {
      var s := Digits(n);
      assert s[..|s| - 1] == Digits(n / 10);
      DigitsRoundTrip(n / 10);
    }
  }

  /** `int(s)` for the text `str` writes: an optional minus sign, then decimal digits. */
  function IntValue(s: string): int {
    if |s| > 0 && s[0] == '-' then -DecimalValue(s[1..]) else DecimalValue(s)
  }

  /** `int(str(n)) == n`: the text of an integer reads back as that integer. */
  lemma IntTextRoundTrip(n: int)
    ensures IntValue(IntText(n)) == n
  {
    if n < 0 {
      NegativeIntText(n);
    } else {
      NonNegativeIntText(n);
    }
  }

  lemma NegativeIntText(n: int)
    requires n < 0
    ensures IntValue(IntText(n)) == n
  {
    var m: nat := -n;
    var d := Digits(m);
    DigitsRoundTrip(m);
    var t := IntText(n);
    assert t == "-" + d;
    assert t[1..] == d;
  }

  lemma NonNegativeIntText(n: int)
    requires n >= 0
    ensures IntValue(IntText(n)) == n
  {
    var d := Digits(n);
    assert IntText(n) == d;
    assert '0' <= d[0] <= '9';
    DigitsRoundTrip(n);
  }
}
