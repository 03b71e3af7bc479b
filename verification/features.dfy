/**
 * The threshold classifiers and compute_derived_features: speed, efficiency,
 * calendar fields and category labels of a validated trip.
 */
module Features {
  import opened TripRecord

  datatype TimePeriod = LateNight | EarlyMorning | MorningRush | Midday | EveningRush | Night {
    function Name(): string {
      match this
      case LateNight => "late_night"
      case EarlyMorning => "early_morning"
      case MorningRush => "morning_rush"
      case Midday => "midday"
      case EveningRush => "evening_rush"
      case Night => "night"
    }
  }

  datatype DistanceCategory = Short | Medium | Long | VeryLong {
    function Name(): string {
      match this
      case Short => "short"
      case Medium => "medium"
      case Long => "long"
      case VeryLong => "very_long"
    }
    /** Position on the distance scale. */
    function Rank(): nat {
      match this
      case Short => 0
      case Medium => 1
      case Long => 2
      case VeryLong => 3
    }
  }

  datatype DurationCategory = Quick | Moderate | Lengthy | Extended {
    function Name(): string {
      match this
      case Quick => "quick"
      case Moderate => "moderate"
      case Lengthy => "lengthy"
      case Extended => "extended"
    }
    function Rank(): nat {
      match this
      case Quick => 0
      case Moderate => 1
      case Lengthy => 2
      case Extended => 3
    }
  }

  datatype SpeedCategory = Slow | Normal | Fast {
    function Name(): string {
      match this
      case Slow => "slow"
      case Normal => "normal"
      case Fast => "fast"
    }
    function Rank(): nat {
      match this
      case Slow => 0
      case Normal => 1
      case Fast => 2
    }
  }

  /** categorize_distance (miles) */
  function CategorizeDistance(distance: real): DistanceCategory {
    if distance < 1.0 then Short
    else if distance < 5.0 then Medium
    else if distance < 15.0 then Long
    else VeryLong
  }

  /** categorize_duration (seconds, compared in minutes) */
  function CategorizeDuration(duration: real): DurationCategory {
    var minutes := duration / 60.0;
    if minutes < 10.0 then Quick
    else if minutes < 30.0 then Moderate
    else if minutes < 60.0 then Lengthy
    else Extended
  }

  /** categorize_speed (mph) */
  function CategorizeSpeed(speed: real): SpeedCategory {
    if speed < 10.0 then Slow
    else if speed < 25.0 then Normal
    else Fast
  }

  /** get_time_period(hour) */
  function GetTimePeriod(hour: int): TimePeriod {
    if 0 <= hour < 5 then LateNight
    else if 5 <= hour < 7 then EarlyMorning
    else if 7 <= hour < 10 then MorningRush
    else if 10 <= hour < 16 then Midday
    else if 16 <= hour < 20 then EveningRush
    else Night
  }

  /** Longer trips never fall in a shorter distance category. */
  lemma DistanceCategoryMonotone(d1: real, d2: real)
    requires d1 <= d2
    ensures CategorizeDistance(d1).Rank() <= CategorizeDistance(d2).Rank()
  {
  }

  /** The minute thresholds of categorize_duration are 600, 1800 and 3600 seconds. */
  lemma DurationCategoryInSeconds(duration: real)
    ensures CategorizeDuration(duration) == Quick <==> duration < 600.0
    ensures CategorizeDuration(duration) == Moderate <==> 600.0 <= duration < 1800.0
    ensures CategorizeDuration(duration) == Lengthy <==> 1800.0 <= duration < 3600.0
    ensures CategorizeDuration(duration) == Extended <==> 3600.0 <= duration
  {
    var minutes := duration / 60.0;
    assert minutes * 60.0 == duration;
  }

  /** Longer trips never fall in a quicker duration category. */
  lemma DurationCategoryMonotone(t1: real, t2: real)
    requires t1 <= t2
    ensures CategorizeDuration(t1).Rank() <= CategorizeDuration(t2).Rank()
  {
    DurationCategoryInSeconds(t1);
    DurationCategoryInSeconds(t2);
  }

  /** Faster trips never fall in a slower speed category. */
  lemma SpeedCategoryMonotone(s1: real, s2: real)
    requires s1 <= s2
    ensures CategorizeSpeed(s1).Rank() <= CategorizeSpeed(s2).Rank()
  {
  }

  /**
   * The time periods partition the day: each hour of [0, 24) falls in the
   * period whose hours contain it, and every other value is night.
   */
  lemma TimePeriodRanges(hour: int)
    ensures GetTimePeriod(hour) == LateNight <==> 0 <= hour < 5
    ensures GetTimePeriod(hour) == EarlyMorning <==> 5 <= hour < 7
    ensures GetTimePeriod(hour) == MorningRush <==> 7 <= hour < 10
    ensures GetTimePeriod(hour) == Midday <==> 10 <= hour < 16
    ensures GetTimePeriod(hour) == EveningRush <==> 16 <= hour < 20
    ensures GetTimePeriod(hour) == Night <==> hour < 0 || 20 <= hour
  {
  }

  /** `trip_distance / duration_hours if duration_hours > 0 else 0` (mph) */
  function AverageSpeed(distance: real, durationSeconds: int): real {
    var durationHours := durationSeconds as real / 3600.0;
    if durationHours > 0.0 then distance / durationHours else 0.0
  }

  /** `trip_distance / duration_minutes if duration_minutes > 0 else 0` (miles per minute) */
  function TripEfficiency(distance: real, durationSeconds: int): real {
    var durationMinutes := durationSeconds as real / 60.0;
    if durationMinutes > 0.0 then distance / durationMinutes else 0.0
  }

  /** Unrounded, the average speed is 60 times the efficiency, and both are 0 for a non-positive duration. */
  lemma SpeedIsSixtyTimesEfficiency(distance: real, durationSeconds: int)
    ensures AverageSpeed(distance, durationSeconds) == 60.0 * TripEfficiency(distance, durationSeconds)
    ensures durationSeconds <= 0 ==> AverageSpeed(distance, durationSeconds) == 0.0
  {
    if durationSeconds > 0 {
      var t := durationSeconds as real;
      var e := distance / (t / 60.0);
      assert e * (t / 60.0) == distance;
      assert 60.0 * e * (t / 3600.0) == distance;
    }
  }

  /** A non-negative distance gives a non-negative speed over any duration. */
  lemma SpeedNonNegative(distance: real, durationSeconds: int)
    requires distance >= 0.0
    ensures AverageSpeed(distance, durationSeconds) >= 0.0
  {
  }

  /** The dictionary compute_derived_features returns. */
  datatype TripFeatures = TripFeatures(
    tripDistanceMiles: real,
    avgSpeedMph: real,
    tripEfficiency: real,
    hourOfDay: int,
    dayOfWeek: int,
    dayOfMonth: int,
    monthOfYear: int,
    isWeekend: bool,
    timePeriod: TimePeriod,
    distanceCategory: DistanceCategory,
    durationCategory: DurationCategory,
    speedCategory: SpeedCategory)

  /**
   * compute_derived_features(row, trip_distance): re-parses the pickup time and
   * the duration (the caller has validated both), then derives the features;
   * the numbers are rounded to 4, 4 and 6 places, the categories are taken
   * from the unrounded values.
   */
  function ComputeDerivedFeatures(row: Row, tripDistance: real, b: Builtins): (f: TripFeatures)
    requires "pickup_datetime" in row && b.parseDatetime(row["pickup_datetime"]).Ok?
    requires "trip_duration" in row && b.parseInt(row["trip_duration"]).Ok?
    ensures var pickup := b.parseDatetime(row["pickup_datetime"]).value;
            && f.hourOfDay == pickup.hour
            && f.dayOfWeek == pickup.weekday
            && f.dayOfMonth == pickup.day
            && f.monthOfYear == pickup.month
            && (f.isWeekend <==> f.dayOfWeek >= 5)
            && (0 <= pickup.weekday <= 6 ==> (f.isWeekend <==> pickup.weekday == 5 || pickup.weekday == 6))
            && f.timePeriod == GetTimePeriod(f.hourOfDay)
    ensures var d := b.parseInt(row["trip_duration"]).value;
            && f.tripDistanceMiles == b.roundTo(tripDistance, 4)
            && f.avgSpeedMph == b.roundTo(AverageSpeed(tripDistance, d), 4)
            && f.tripEfficiency == b.roundTo(TripEfficiency(tripDistance, d), 6)
            && f.distanceCategory == CategorizeDistance(tripDistance)
            && f.durationCategory == CategorizeDuration(d as real)
            && f.speedCategory == CategorizeSpeed(AverageSpeed(tripDistance, d))
  {
    var pickup := b.parseDatetime(row["pickup_datetime"]).value;
    var durationSeconds := b.parseInt(row["trip_duration"]).value;
    var avgSpeedMph := AverageSpeed(tripDistance, durationSeconds);
    var tripEfficiency := TripEfficiency(tripDistance, durationSeconds);
    TripFeatures(
      b.roundTo(tripDistance, 4),
      b.roundTo(avgSpeedMph, 4),
      b.roundTo(tripEfficiency, 6),
      pickup.hour,
      pickup.weekday,
      pickup.day,
      pickup.month,
      pickup.weekday >= 5,
      GetTimePeriod(pickup.hour),
      CategorizeDistance(tripDistance),
      CategorizeDuration(durationSeconds as real),
      CategorizeSpeed(avgSpeedMph))
  }

  /**
   * The categories of a trip's features agree with its unrounded speed and
   * efficiency: the speed category is that of 60 times the efficiency, and a
   * trip of at least an hour is extended.
   */
  lemma FeaturesConsistent(row: Row, tripDistance: real, b: Builtins)
    requires "pickup_datetime" in row && b.parseDatetime(row["pickup_datetime"]).Ok?
    requires "trip_duration" in row && b.parseInt(row["trip_duration"]).Ok?
    ensures var f := ComputeDerivedFeatures(row, tripDistance, b);
            var d := b.parseInt(row["trip_duration"]).value;
            && f.speedCategory == CategorizeSpeed(60.0 * TripEfficiency(tripDistance, d))
            && (d >= 3600 <==> f.durationCategory == Extended)
            && (d < 600 <==> f.durationCategory == Quick)
  {
    var d := b.parseInt(row["trip_duration"]).value;
    SpeedIsSixtyTimesEfficiency(tripDistance, d);
    DurationCategoryInSeconds(d as real);
  }
}
