# NYC taxi trip explorer — verified model of the processing core

The NYC taxi trip explorer reads the trip CSV, rejects rows that fail its
data-quality rules, derives per-trip features (distance, speed, efficiency,
time of day, categories) and loads the accepted trips in batches into a
database, logging every rejected row in a data-quality log. Its analytics
layer carries four hand-written algorithms: a QuickSort with a key and a
direction, a route-frequency counter with a top-N selection, an IQR outlier
detector with summary statistics, and a time-series grouper.

This project models those two core files in Dafny and proves what they
promise.

- `quicksort.dfy`: `QuickSort.sort` as the in-place Lomuto partition and recursion on an
  array. It is proved to return a permutation of its input that is ordered by the key
  in the requested direction. `SortValues` is the key-less call on numbers; it equals
  an insertion-sort reference, the only ascending permutation.
- `route_frequency.dfy` with `distinct.dfy`: `RouteFrequencyCounter` as a class over the
  frequency dictionary, held as insertion order plus a map. `TopRoutes` is a
  reference definition of the repeated "first maximum, remove it" selection.
  `GetTopRoutes` is proved equal to it. Lemmas give its length, order, true counts,
  distinct routes, dominance over the routes left out, and the insertion order among ties.
- `outlier_detector.dfy` with `numeric.dfy`: quartiles by the median of the halves,
  including the IndexError a one-element input raises. Also the IQR outlier report and
  the summary statistics, as methods with their loops, proved against sums, medians and
  filters.
- `time_series.dfy`: `TimeSeriesGrouper` as a class. `Aggregate` is proved to summarise
  every non-empty group, in insertion order, with sum, average, minimum and maximum per
  metric. `GetSortedGroups` is proved to return every non-empty group once, ordered by
  count when asked.
- `trip_record.dfy`, `validator.dfy`, `features.dfy`: the CSV row, the issue kinds, the
  thresholds, `validate_record` check by check, the category and time-period
  classifiers, and `compute_derived_features`.
- `pipeline.dfy`: the record loop of `process_and_load_data` as a pure specification
  (`Step`, `Run`, `Finish`). `DataProcessor` is the imperative loop, proved to leave the
  processor's statistics, issues log and committed batches exactly as the specification
  says. Lemmas prove that the counters add up, that the cap stops the loop, and that
  loaded trip ids are distinct.

The library routines the core calls are parameters of the model, gathered in
`TripRecord.Builtins`. They are `float()`, `int()`, `datetime.strptime`, the
haversine distance, `round` and float-to-text formatting. The database is the
`Pipeline.Database` parameter: it says whether a batch insert and the issues-log
insert commit.

## Model

| member | source | states |
|---|---|---|
| QuickSort.Sort | backend/algorithms.py:4-53 | the result is a permutation of the input (multiset equality) ordered by `key` ascending, or descending when `reverse`; an empty input gives an empty result |
| QuickSort.Partition | backend/algorithms.py:17-40 | Lomuto partition of `low..high`: the pivot (old last element) lands at the returned index, every element before it strictly precedes it in the sort direction, none after it does, the range is permuted and nothing outside it changes |
| QuickSort.Swap | backend/algorithms.py:37 | exchanges two cells, leaves every other cell alone and keeps the range's multiset |
| QuickSort.QuicksortRange | backend/algorithms.py:42-50 | after the recursion `low..high` is ordered in the sort direction, is a permutation of what it held, and nothing outside it changes |
| QuickSort.JoinAroundPivot | backend/algorithms.py:46-50 | two ordered sides around a correctly placed pivot make an ordered range |
| QuickSort.RecursionStep | backend/algorithms.py:46-50 | sorting the two sides in turn keeps the whole range a permutation and makes it ordered |
| QuickSort.SortedByIdentity | backend/algorithms.py:11-15 | with no key, an ascending sort by the identity key is ascending numeric order |
| QuickSort.SortValues | backend/algorithms.py:118 | `QuickSort.sort(data)` on numbers yields exactly the insertion-sort reference `SortedValues(data)` |
| QuickSort.SortedValuesSorts | backend/algorithms.py:118 | the reference sort is ascending and a permutation of its input |
| QuickSort.InsertKeepsOrder | backend/algorithms.py:118 | inserting into an ascending sequence keeps it ascending and adds exactly that element |
| QuickSort.AscendingPermutationUnique | backend/algorithms.py:118 | two ascending sequences with the same elements are equal, so every correct numeric sort gives the same list |
| RouteFrequency.RouteFrequencyCounter.constructor | backend/algorithms.py:58-59 | a new counter has an empty frequency map |
| RouteFrequency.RouteFrequencyCounter.AddRoute | backend/algorithms.py:61-71 | the route's count becomes 1 if new (appended to the insertion order) or one more than before; nothing else changes; the number of unique routes never decreases |
| RouteFrequency.RouteFrequencyCounter.UniqueRoutes | backend/algorithms.py:105-107 | the number of unique routes is the number of keys in insertion order |
| RouteFrequency.RouteFrequencyCounter.Items | backend/algorithms.py:78-80 | `frequency_map.items()` lists each route once, in insertion order, with its count |
| RouteFrequency.RouteFrequencyCounter.GetTopRoutes | backend/algorithms.py:73-103 | returns `min(n, unique routes)` entries (none for n ≤ 0 or an empty map), in non-increasing count, with the map's true counts, no route twice, each count at least that of every route left out, and tied routes in insertion order |
| RouteFrequency.RouteFrequencyCounter.ListItems | backend/algorithms.py:77-79 | the copied list is `frequency_map.items()` in insertion order |
| RouteFrequency.FirstMaxIndex | backend/algorithms.py:91-97 | the scan's index holds a maximum count and every earlier entry has a strictly smaller count (first maximum wins) |
| RouteFrequency.FindFirstMax | backend/algorithms.py:91-97 | the scanning loop returns exactly `FirstMaxIndex` |
| RouteFrequency.SelectTopRoutes | backend/algorithms.py:84-101 | the selection loop with `pop` returns exactly the reference `TopRoutes` |
| RouteFrequency.RemoveAtMultiset | backend/algorithms.py:101 | `pop(i)` removes exactly that one entry |
| RouteFrequency.TopRoutes | backend/algorithms.py:73-103 | the reference for `get_top_routes(n)`: `min(n, len)` rounds, each taking the first entry of greatest count out of the remaining ones; the `TopRoutes*` lemmas below prove its length, its source, its order, dominance and tie order, and `SelectTopRoutes`/`GetTopRoutes` are proved equal to it |
| RouteFrequency.TopRoutesLength | backend/algorithms.py:86 | the selection yields `min(n, len)` entries, and none for n ≤ 0 |
| RouteFrequency.TopRoutesFromEntries | backend/algorithms.py:100-101 | every selected entry is taken from the list, none more often than it occurs |
| RouteFrequency.TopRoutesNonIncreasing | backend/algorithms.py:90-100 | the selected counts never increase |
| RouteFrequency.TopRoutesDominate | backend/algorithms.py:90-101 | every entry left out has a count no larger than any selected one |
| RouteFrequency.TopRoutesTieOrder | backend/algorithms.py:95 | among entries of equal count, the selection keeps their original order (a prefix of them) |
| RouteFrequency.TopRoutesSummary | backend/algorithms.py:73-103 | on distinct routes all of the above hold together, and the selection has no repeated route |
| RouteFrequency.DistinctRoutesCount | backend/algorithms.py:107 | distinct insertion order and the map's keys have the same size |
| Distinct.SubMultisetKeepsDistinct | backend/algorithms.py:100-101 | entries drawn from a list with distinct keys have distinct keys |
| OutlierDetector.Median | backend/algorithms.py:121-125 | the middle value of a sorted list, or the mean of the two middle values when the length is even; `MedianBetweenMiddle` proves it lies between the two middle values and within the data's range |
| OutlierDetector.QuartilesOfSorted | backend/algorithms.py:119-145 | on sorted data: no quartiles for no data, the IndexError of an empty lower half for one value, else Q1, Q2 and Q3 as the medians of the lower half, the whole and the upper half without the middle value; `QuartilesOrdered` proves min ≤ Q1 ≤ Q2 ≤ Q3 ≤ max |
| OutlierDetector.CalculateQuartiles | backend/algorithms.py:113-145 | `calculate_quartiles`: the quartiles of the QuickSort-sorted data; `QuartilesDefined`, `CalculatedQuartilesOrdered` and `QuartilesOfOneToEight` state when they exist, their order and a concrete case |
| OutlierDetector.QuartilesDefined | backend/algorithms.py:113-145 | `calculate_quartiles` returns `(None, None, None)` exactly for empty data and fails with an IndexError exactly for one value; otherwise it computes three quartiles |
| OutlierDetector.QuartilesOrdered | backend/algorithms.py:119-145 | on sorted data of two or more values, min ≤ Q1 ≤ Q2 ≤ Q3 ≤ max |
| OutlierDetector.CalculatedQuartilesOrdered | backend/algorithms.py:113-145 | for two or more values of any order the quartiles come out and Q1 ≤ Q2 ≤ Q3 |
| OutlierDetector.QuartilesOfOneToEight | backend/algorithms.py:113-145 | for 1..8 the quartiles are 2.5, 4.5 and 6.5 (medians of the halves, not interpolation) |
| OutlierDetector.MedianBetweenMiddle | backend/algorithms.py:122-125 | the median lies between the two middle values, hence between the extremes |
| OutlierDetector.SortedValuesOfAscending | backend/algorithms.py:118 | sorting already-sorted data changes nothing |
| OutlierDetector.DetectOutliers | backend/algorithms.py:148-194 | fewer than four values give the empty report; otherwise the report carries the quartiles, IQR = Q3 − Q1, bounds Q1 − m·IQR and Q3 + m·IQR, exactly the values outside the bounds in input order, their count, the percentage and the total |
| OutlierDetector.OutsideBounds | backend/algorithms.py:178-181 | the values strictly below the lower or above the upper bound, in input order; `OutsideBoundsCounts` proves each such value is kept as often as it occurs and no other is kept, and `CollectOutliers` proves the loop computes it |
| OutlierDetector.CollectOutliers | backend/algorithms.py:178-181 | the loop collects exactly the values outside the bounds, in input order |
| OutlierDetector.OutsideBoundsCounts | backend/algorithms.py:178-181 | each value outside the bounds is kept as often as it occurs and no value inside them is kept |
| OutlierDetector.OutsideBoundsAppend | backend/algorithms.py:179-181 | the outlier filter distributes over concatenation |
| OutlierDetector.BoundsEncloseQuartileRange | backend/algorithms.py:170-175 | for a non-negative multiplier, IQR ≥ 0 and lower bound ≤ Q1 ≤ Q2 ≤ Q3 ≤ upper bound |
| OutlierDetector.OutliersWithinTotal | backend/algorithms.py:178-193 | no value within the bounds is reported, the count is at most the total and the percentage is between 0 and 100 |
| OutlierDetector.CalculateStatistics | backend/algorithms.py:197-243 | empty data gives no statistics; otherwise the count, the mean Sum/n, the median of the sorted data, the least and greatest value, range = max − min and the population variance, with min ≤ median ≤ max, min ≤ mean ≤ max, range ≥ 0 and variance ≥ 0 |
| OutlierDetector.Total | backend/algorithms.py:212-214 | the accumulated total is the sum of the data |
| OutlierDetector.VarianceSum | backend/algorithms.py:229-231 | the accumulated value is the sum of squared deviations from the mean |
| OutlierDetector.SortedExtremes | backend/algorithms.py:218-226 | the first and last sorted values are the least and greatest of the data |
| Numeric.MeanBounds | backend/algorithms.py:212-215 | a mean of values between two bounds lies between them |
| Numeric.SumBounds | backend/algorithms.py:212-214 | the sum of n values between lo and hi lies between n·lo and n·hi |
| Numeric.SquaredDeviations | backend/algorithms.py:229-231 | the sum of squared deviations is never negative |
| TimeSeries.TimeSeriesGrouper.constructor | backend/algorithms.py:249-250 | a new grouper has no groups |
| TimeSeries.TimeSeriesGrouper.AddToGroup | backend/algorithms.py:252-256 | the value is appended to its key's group, created (at the end of the key order) when new; other groups are unchanged |
| TimeSeries.TimeSeriesGrouper.Aggregate | backend/algorithms.py:258-302 | one entry per non-empty group in insertion order, each with its item count and, for every requested metric with a non-None value, the sum, average, minimum and maximum of those values; with no empty groups every group appears |
| TimeSeries.TimeSeriesGrouper.GetSortedGroups | backend/algorithms.py:304-323 | every non-empty group appears exactly once with its count; ordered by count (descending when `reverse`) when sorting by "count", else in insertion order |
| TimeSeries.ArrangementOfGroups | backend/algorithms.py:310-321 | any permutation of the aggregated counts still holds each non-empty group exactly once with its count |
| TimeSeries.NonEmptyKeys | backend/algorithms.py:262-264 | the aggregated keys are keys of non-empty groups |
| TimeSeries.NonEmptyKeysComplete | backend/algorithms.py:262-264 | every non-empty group is aggregated |
| TimeSeries.NonEmptyKeysDistinct | backend/algorithms.py:262-300 | the aggregated keys are distinct |
| TimeSeries.NonEmptyKeysAll | backend/algorithms.py:263-264 | when no group is empty, all keys are aggregated in order |
| TimeSeries.GroupsCovered | backend/algorithms.py:310-321 | sorting the groups loses none of them |
| TimeSeries.SummariseMetric | backend/algorithms.py:277-298 | the sum, the average sum/n, and the least and greatest of the metric values |
| TimeSeries.SummariseGroup | backend/algorithms.py:266-298 | the group's count and a summary for exactly the metrics that have values |
| TimeSeries.CollectMetricValues | backend/algorithms.py:272-275 | the non-None values of the metric, in item order |
| TimeSeries.AbsentMetricHasNoValues | backend/algorithms.py:274-277 | a metric missing or None in every item gets no summary |
| TimeSeries.AverageBetweenExtremes | backend/algorithms.py:284-293 | a metric's average lies between its minimum and maximum |
| TripRecord.Digits | backend/data_processor.py:118 | decimal digits of `str(n)`: non-empty and without a leading zero |
| TripRecord.IntTextRoundTrip | backend/data_processor.py:118 | `int(str(n)) == n`: the text of an integer, sign and digits, reads back as that integer |
| Validator.FirstMissing | backend/data_processor.py:83-90 | the first required field that is absent, empty or blank; none exactly when all are present |
| Validator.CheckTrip | backend/data_processor.py:92-153 | the checks after the missing-field scan, in source order, each stopping at its own issue; `ValidIffAcceptable`, `CoordinateChecks`, `DurationAndPassengerChecks`, `TimestampChecks` and the parse-error lemmas state which issue each failure gives |
| Validator.ValidateRecord | backend/data_processor.py:78-155 | the record is valid exactly when there are no issues, and an invalid one carries exactly one issue |
| Validator.ValidIffAcceptable | backend/data_processor.py:78-155 | valid exactly when every field is present, the numbers and times parse, both points are in the NYC box and apart, the duration and passenger count are in range, dropoff is after pickup and the duration matches within 10 seconds |
| Validator.MissingFieldReportedFirst | backend/data_processor.py:87-90 | the first missing field gives a `missing_values` issue naming that field, before any other check |
| Validator.CoordinateChecks | backend/data_processor.py:94-113 | pickup outside NYC, then dropoff outside NYC, then the same location each give their own issue and text |
| Validator.DurationAndPassengerChecks | backend/data_processor.py:116-134 | an unparsable duration (reported as `invalid_datetime` with the parser's message), a non-positive one, one shorter than 60 s, one longer than 86400 s and a passenger count outside 1..9 each give their own issue |
| Validator.TimestampChecks | backend/data_processor.py:137-149 | dropoff not after pickup, or a duration more than 10 s away from the timestamps, gives its issue; otherwise the record is valid |
| Validator.ParseErrorIsDatetimeIssue | backend/data_processor.py:93-153 | the first of the four coordinates, in the order pickup longitude, pickup latitude, dropoff longitude, dropoff latitude, that does not parse is reported as an `invalid_datetime` issue on field "datetime" carrying the parser's message, on any row with every required field present |
| Validator.PassengerCountParseError | backend/data_processor.py:130-153 | on a row that passes the coordinate and duration checks, an unparsable passenger count is reported as an `invalid_datetime` issue carrying the parser's message |
| Validator.TimestampParseErrors | backend/data_processor.py:137-153 | on a row that passes every count check, an unparsable pickup time, or a parsable pickup with an unparsable dropoff time, is reported as an `invalid_datetime` issue carrying the parser's message |
| Features.CategorizeDistance | backend/data_processor.py:157-166 | short below 1 mile, medium below 5, long below 15, else very long; `DistanceCategoryMonotone` proves a longer distance never gets a lower category |
| Features.CategorizeDuration | backend/data_processor.py:168-178 | quick, moderate, lengthy and extended by minutes at 10, 30 and 60; `DurationCategoryInSeconds` restates the thresholds as 600, 1800 and 3600 seconds in both directions and `DurationCategoryMonotone` proves the order |
| Features.CategorizeSpeed | backend/data_processor.py:180-187 | slow below 10 mph, normal below 25, else fast; `SpeedCategoryMonotone` proves a faster speed never gets a slower category |
| Features.GetTimePeriod | backend/data_processor.py:189-202 | the period of an hour; `TimePeriodRanges` proves each period holds exactly its hours and every other value is night |
| Features.AverageSpeed | backend/data_processor.py:208-215 | miles per hour, 0 for a non-positive duration; `SpeedIsSixtyTimesEfficiency` and `SpeedNonNegative` relate it to the efficiency and bound it below |
| Features.TripEfficiency | backend/data_processor.py:209-220 | miles per minute, 0 for a non-positive duration; `SpeedIsSixtyTimesEfficiency` proves the speed is 60 times it |
| Features.DistanceCategoryMonotone | backend/data_processor.py:157-166 | a longer trip never falls into a shorter distance category |
| Features.DurationCategoryInSeconds | backend/data_processor.py:168-178 | the duration categories are below 600 s, 600–1800 s, 1800–3600 s and from 3600 s |
| Features.DurationCategoryMonotone | backend/data_processor.py:168-178 | a longer trip never falls into a quicker category |
| Features.SpeedCategoryMonotone | backend/data_processor.py:180-187 | a faster trip never falls into a slower category |
| Features.TimePeriodRanges | backend/data_processor.py:189-202 | each period holds exactly its hours, and every other value is night |
| Features.SpeedIsSixtyTimesEfficiency | backend/data_processor.py:212-220 | unrounded speed in mph is 60 times efficiency in miles per minute, and both are 0 for a non-positive duration |
| Features.SpeedNonNegative | backend/data_processor.py:212-215 | a non-negative distance never gives a negative speed |
| Features.ComputeDerivedFeatures | backend/data_processor.py:204-248 | hour, weekday, day and month are the pickup's; weekend exactly when the weekday is 5 or more, which for Python's 0 (Monday) to 6 (Sunday) range means Saturday or Sunday; the time period is that of the hour; the distance, duration and speed categories are taken on the unrounded distance, duration and speed, and the three figures are rounded to 4, 4 and 6 places; what the categories and the period mean is proved of the named functions by `TimePeriodRanges`, `DurationCategoryInSeconds`, the three monotonicity lemmas, `SpeedIsSixtyTimesEfficiency` and `FeaturesConsistent` |
| Features.FeaturesConsistent | backend/data_processor.py:204-248 | the speed category is that of 60 times the efficiency; extended exactly from an hour, quick exactly below ten minutes |
| Pipeline.Truncate | backend/data_processor.py:257 | `str(value)[:100]` is a prefix of the value, of length min(length, 100) |
| Pipeline.LogAll | backend/data_processor.py:298-299 | one log entry per issue |
| Pipeline.ClassifyRow | backend/data_processor.py:294-330 | a rejected row carries exactly one issue |
| Pipeline.ScreenValidRow | backend/data_processor.py:302-330 | a row stopped by the distance or the speed gate carries exactly one issue |
| Pipeline.Admit | backend/data_processor.py:294-345 | a row with a new id: a rejection counts as invalid and logs its issues; an acceptance counts as valid, joins the pending batch, and a full batch is flushed; `AcceptedIff` and `StepKeepsConsistent` state the outcome and the invariants |
| Pipeline.Flush | backend/data_processor.py:341-343 | a committed batch is stored and the pending list emptied; a failed insert marks the run failed, as the re-raise ends the loop; `StepKeepsConsistent` proves no flush happens inside the capped loop |
| Pipeline.Step | backend/data_processor.py:282-345 | one row once the cap check has passed: counted, then a duplicate or handed to `Admit`; `StepKeepsConsistent`, `StepKeepsIdsDistinct` and `DuplicateNotValidated` state what it keeps |
| Pipeline.Run | backend/data_processor.py:277-345 | the loop, stopping at the end of input, a failed insert or the cap; `RunKeepsConsistent`, `RunKeepsIdsDistinct`, `RunCountsRows` and `CapStopsProcessing` state what it keeps and how it stops |
| Pipeline.Finish | backend/data_processor.py:347-352 | the last pending batch, then the issues log, whose failure is swallowed; `FreshRunOutcome` states the end state of a whole run |
| Pipeline.AcceptedIff | backend/data_processor.py:294-336 | a row is loaded exactly when it validates, its distance is at most 100 miles and its speed is within 0.5–100 mph; the record is the row with its derived features |
| Pipeline.AcceptedKeepsRow | backend/data_processor.py:333-336 | the stored record holds the row itself |
| Pipeline.DuplicateNotValidated | backend/data_processor.py:285-289 | a repeated id is counted and logged as `duplicate_record` and nothing else happens |
| Pipeline.CapStopsProcessing | backend/data_processor.py:275-280 | once 300 rows are valid, no further row is counted or processed: the row the loop header fetched is dropped by the `break` before `total` grows |
| Pipeline.RunCountsRows | backend/data_processor.py:277-282 | every row the loop processes is counted once; if the loop neither hits the cap nor fails, every row is processed |
| Pipeline.StepKeepsConsistent | backend/data_processor.py:277-345 | one row keeps total = valid + invalid + duplicates, one log entry per rejected row, valid ≤ 300 and the pending batch short |
| Pipeline.RunKeepsConsistent | backend/data_processor.py:277-345 | the whole loop keeps those invariants, and with at most 300 valid rows no batch is flushed inside it |
| Pipeline.StepKeepsIdsDistinct | backend/data_processor.py:285-291 | after one row, the loaded and pending records have distinct ids, all among the seen ids |
| Pipeline.RunKeepsIdsDistinct | backend/data_processor.py:277-345 | the loop never loads two records with the same id |
| Pipeline.FreshRunOutcome | backend/data_processor.py:260-355 | a run from a fresh processor keeps the counters consistent, loads at most 300 distinct-id records in at most one batch, and writes either nothing or the whole issues log |
| Pipeline.DataProcessor.constructor | backend/data_processor.py:33-42 | the statistics start at zero and the logs and tables empty |
| Pipeline.DataProcessor.LogIssue | backend/data_processor.py:250-258 | appends one entry whose value is at most 100 characters, changing nothing else |
| Pipeline.DataProcessor.LogIssues | backend/data_processor.py:298-299 | appends one entry per issue, in order, changing nothing else |
| Pipeline.DataProcessor.InsertBatch | backend/data_processor.py:365-428 | the batch is committed exactly when the database accepts it; otherwise nothing is stored |
| Pipeline.DataProcessor.InsertIssuesLog | backend/data_processor.py:430-455 | a non-empty issues log is written when the database accepts it; nothing is written otherwise |
| Pipeline.DataProcessor.ProcessRow | backend/data_processor.py:282-345 | the loop body does exactly what `Step` specifies |
| Pipeline.DataProcessor.AdmitValidRow | backend/data_processor.py:302-345 | for a row that validates, the distance and speed gates, the feature computation and the batch flush do exactly what `Admit` specifies for the verdict of `ScreenValidRow` |
| Pipeline.DataProcessor.ProcessAndLoadData | backend/data_processor.py:260-363 | the statistics, the issues log, the committed batches and the data-quality log end as `Finish(Run(...))` specifies; the call completes exactly when no batch insert fails |

## Left out

- Reading the CSV file, opening and closing the database connection, the progress and summary output (including `print_summary`'s issue-type counts), and the `main` entry point are I/O.
- The rows are given as maps from column name to text. A column that a short row cannot fill is absent from the map. A file without an `id` column, where every `row['id']` raises KeyError, is not modelled.
- `haversine_distance`, `round`, `float()`, `int()`, `datetime.strptime`, and the `str`/`f'{x}'`/`f'{x:.2f}'` text of floats are parameters of the model (`TripRecord.Builtins`). Their results are not computed.
- Floating point is modelled by exact reals. NaN, infinities and rounding error are not modelled. The NYC bounds reject NaN coordinates in the source too.
- OutlierDetector.CalculateStatistics: the standard deviation is not modelled. The model returns the population variance; `variance ** 0.5` is a floating-point square root.
- Default arguments are not modelled: `detect_outliers(multiplier=1.5)`, `get_top_routes(n=10)` and `get_sorted_groups(sort_by='count', reverse=True)` become `OutlierDetector.DetectOutliers`, `RouteFrequency.RouteFrequencyCounter.GetTopRoutes` and `TimeSeries.TimeSeriesGrouper.GetSortedGroups` with those parameters required; a caller that relies on a default passes its value.
- RouteFrequency.RouteFrequencyCounter.AddRoute: takes coordinates already rounded to three decimal places, as integer thousandths of a degree. The `round(x, 3)` gridding itself is not modelled.
- QuickSort.Sort: the order among equal keys is not pinned down, because QuickSort is not stable. The contract fixes the elements and their order by key only.
- QuickSort.Sort: the recursion depth is not modelled. The source takes the last element as pivot and moves only strictly smaller keys (strictly greater when reversed) before it, so input already in the requested order or all-equal input recurses once per element; past Python's default limit of 1000 frames it raises RecursionError, and so do `calculate_quartiles` and `calculate_statistics`, which sort through it. The model always returns the sorted sequence.
- TimeSeries.TimeSeriesGrouper.Aggregate: the per-metric results are kept in one map per group, keyed by metric name. The source's flat `f'{metric}_sum'`-style keys are not modelled. A metric value is a number or None (`TimeSeries.Value`); a value of another type, on which `total += val` raises TypeError, is not modelled.
- Pipeline.DataProcessor.InsertBatch: the database is reduced to two functions that say whether a batch or the issues log commits. The SQL statements are not modelled. Neither are the per-row `int(vendor_id)` and `store_and_fwd_flag` reads; when one of them raises, the load stops as it does when an insert fails.
- Server endpoints, the front end, database initialisation and the configuration module are outside this model.
