/**
 * TimeSeriesGrouper: items bucketed by a key, then per-group counts and
 * per-metric sum / average / minimum / maximum.
 */
module TimeSeries {
  import opened Numeric
  import QuickSort
  import opened Distinct

  /** A metric value of an item: a number, or Python's None. */
  datatype Value = Null | Number(x: real)

  /** An item added to a group: metric name to value (a Python dict). */
  type Item = map<string, Value>

  /** The `<metric>_sum`, `_avg`, `_min` and `_max` entries of a group result. */
  datatype MetricSummary = MetricSummary(sum: real, avg: real, min: real, max: real)

  /**
   * A group result: its `count` and, per metric that has values, its four
   * aggregates. The flat keys `f'{metric}_sum'` and so on are kept apart by
   * metric instead; distinct metrics never produce the same flat key.
   */
  datatype GroupSummary = GroupSummary(count: nat, metrics: map<string, MetricSummary>)

  /** One `(group_key, group_result)` entry of an aggregate, in dictionary order. */
  datatype GroupEntry<K> = GroupEntry(key: K, summary: GroupSummary)

  /** The non-None numbers that `metric` has in `values`, in item order. */
  function MetricValues(values: seq<Item>, metric: string): seq<real> {
    if |values| == 0 then []
    else
      var item := values[|values| - 1];
      MetricValues(values[..|values| - 1], metric)
        + (if metric in item && item[metric].Number? then [item[metric].x] else [])
  }

  /** `summary` holds the sum, average, minimum and maximum of the non-empty `vs`. */
  ghost predicate Describes(summary: MetricSummary, vs: seq<real>) {
    && |vs| > 0
    && summary.sum == Sum(vs)
    && summary.avg == Sum(vs) / |vs| as real
    && IsLeast(summary.min, vs)
    && IsGreatest(summary.max, vs)
  }

  /**
   * `g` is the aggregate of one group's `values` over `metricKeys`: the item
   * count, and exactly the metrics with at least one value, each described.
   */
  ghost predicate Summarises(g: GroupSummary, values: seq<Item>, metricKeys: seq<string>) {
    && g.count == |values|
    && (forall m :: m in g.metrics <==> m in metricKeys && MetricValues(values, m) != [])
    && (forall m :: m in g.metrics ==> Describes(g.metrics[m], MetricValues(values, m)))
  }

  /** The group keys in insertion order whose item lists are not empty. */
  function NonEmptyKeys<K>(keys: seq<K>, groups: map<K, seq<Item>>): (r: seq<K>)
    requires forall k :: k in keys ==> k in groups
    ensures forall k :: k in r ==> k in keys && groups[k] != []
  {
    if |keys| == 0 then []
    else
      var k := keys[|keys| - 1];
      NonEmptyKeys(keys[..|keys| - 1], groups) + (if groups[k] != [] then [k] else [])
  }

  lemma NonEmptyKeysPrefix<K>(keys: seq<K>, groups: map<K, seq<Item>>, i: nat)
    requires forall k :: k in keys ==> k in groups
    requires i < |keys|
    ensures NonEmptyKeys(keys[..i + 1], groups)
            == NonEmptyKeys(keys[..i], groups) + (if groups[keys[i]] != [] then [keys[i]] else [])
  {
    assert keys[..i + 1][..i] == keys[..i];
  }

  /** With no empty group, every group key is kept, in insertion order. */
  lemma {:induction false} NonEmptyKeysAll<K>(keys: seq<K>, groups: map<K, seq<Item>>)
    requires forall k :: k in keys ==> k in groups && groups[k] != []
    ensures NonEmptyKeys(keys, groups) == keys
  {
    if |keys| > 0 {
      var init, last := keys[..|keys| - 1], keys[|keys| - 1];
      SplitLast(keys);
      NonEmptyKeysAll(init, groups);
      assert NonEmptyKeys(keys, groups) == init + [last];
    }
  }

  lemma SplitLast<T>(s: seq<T>)
    requires |s| > 0
    ensures s == s[..|s| - 1] + [s[|s| - 1]]
    ensures forall x :: x in s[..|s| - 1] ==> x in s
  {
  }

  /** Every non-empty group is kept. */
  lemma {:induction false} NonEmptyKeysComplete<K>(keys: seq<K>, groups: map<K, seq<Item>>, k: K)
    requires forall k :: k in keys ==> k in groups
    requires k in keys && groups[k] != []
    ensures k in NonEmptyKeys(keys, groups)
  {
    var init := keys[..|keys| - 1];
    if k != keys[|keys| - 1] {
      assert k in init;
      NonEmptyKeysComplete(init, groups, k);
    }
  }

  ghost predicate NoRepeats<K>(s: seq<K>) {
    forall i, j :: 0 <= i < j < |s| ==> s[i] != s[j]
  }

  /** Distinct group keys stay distinct. */
  lemma {:induction false} NonEmptyKeysDistinct<K>(keys: seq<K>, groups: map<K, seq<Item>>)
    requires forall k :: k in keys ==> k in groups
    requires NoRepeats(keys)
    ensures NoRepeats(NonEmptyKeys(keys, groups))
  {
    if |keys| > 0 {
      var init := keys[..|keys| - 1];
      var last := keys[|keys| - 1];
      NonEmptyKeysDistinct(init, groups);
      var r0 := NonEmptyKeys(init, groups);
      assert last !in r0 by {
        assert forall i :: 0 <= i < |init| ==> init[i] != last by {
          forall i | 0 <= i < |init| ensures init[i] != last {
            assert init[i] == keys[i];
          }
        }
      }
      var r := NonEmptyKeys(keys, groups);
      if groups[last] != [] {
        assert r == r0 + [last];
        forall i, j | 0 <= i < j < |r| ensures r[i] != r[j] {
          if j == |r0| {
            assert r[i] == r0[i];
          } else {
            assert r[i] == r0[i] && r[j] == r0[j];
          }
        }
      } else {
        assert r == r0;
      }
    }
  }

  /**
   * Any arrangement of one entry per non-empty key, such as a sort of the
   * aggregated groups, has an entry for every non-empty group.
   */
  lemma GroupsCovered<K>(keys: seq<K>, groups: map<K, seq<Item>>, s: seq<GroupEntry<K>>, t: seq<GroupEntry<K>>)
    requires forall k :: k in keys ==> k in groups
    requires |s| == |NonEmptyKeys(keys, groups)|
    requires forall i :: 0 <= i < |s| ==> s[i].key == NonEmptyKeys(keys, groups)[i]
    requires multiset(t) == multiset(s)
    ensures forall k :: k in keys && groups[k] != [] ==> exists i :: 0 <= i < |t| && t[i].key == k
  {
    forall k | k in keys && groups[k] != []
      ensures exists i :: 0 <= i < |t| && t[i].key == k
    {
      NonEmptyKeysComplete(keys, groups, k);
      var r := NonEmptyKeys(keys, groups);
      var j :| 0 <= j < |r| && r[j] == k;
      assert s[j] in multiset(t);
      var i :| 0 <= i < |t| && t[i] == s[j];
    }
  }

  function KeyOf<K>(e: GroupEntry<K>): K {
    e.key
  }

  /** The average of a metric lies between its minimum and its maximum. */
  lemma AverageBetweenExtremes(summary: MetricSummary, vs: seq<real>)
    requires Describes(summary, vs)
    ensures summary.min <= summary.avg <= summary.max
  {
    MeanBounds(vs, summary.min, summary.max);
  }

  /** A metric missing or None in every item gets no aggregates. */
  lemma {:induction false} AbsentMetricHasNoValues(values: seq<Item>, metric: string)
    requires forall i :: 0 <= i < |values| ==> metric !in values[i] || values[i][metric] == Null
    ensures MetricValues(values, metric) == []
  {
    if |values| > 0 {
      AbsentMetricHasNoValues(values[..|values| - 1], metric);
    }
  }

  /** The inner `for item in values` loop: the metric's non-None values. */
  method CollectMetricValues(values: seq<Item>, metric: string) returns (metricValues: seq<real>)
    ensures metricValues == MetricValues(values, metric)
  {
    metricValues := [];
    for i := 0 to |values|
      invariant metricValues == MetricValues(values[..i], metric)
    {
      assert values[..i + 1][..i] == values[..i];
      var item := values[i];
      if metric in item && item[metric] != Null {
        metricValues := metricValues + [item[metric].x];
      }
    }
    assert values[..|values|] == values;
  }

  /** Sum, average and the min/max scan over a metric's values. */
  method SummariseMetric(metricValues: seq<real>) returns (summary: MetricSummary)
    requires |metricValues| > 0
    ensures Describes(summary, metricValues)
  {
    var total := 0.0;
    for i := 0 to |metricValues|
      invariant total == Sum(metricValues[..i])
    {
      SumPrefix(metricValues, i);
      total := total + metricValues[i];
    }
    assert metricValues[..|metricValues|] == metricValues;
    var avg := total / |metricValues| as real;
    var minVal := metricValues[0];
    var maxVal := metricValues[0];
    for i := 1 to |metricValues|
      invariant minVal in metricValues[..i] && maxVal in metricValues[..i]
      invariant forall k :: 0 <= k < i ==> minVal <= metricValues[k] <= maxVal
    {
      if metricValues[i] < minVal {
        minVal := metricValues[i];
      }
      if metricValues[i] > maxVal {
        maxVal := metricValues[i];
      }
    }
    summary := MetricSummary(total, avg, minVal, maxVal);
  }

  /** `result` aggregates, in order, the non-empty groups among `ks`. */
  ghost predicate SummarisesGroups<K>(result: seq<GroupEntry<K>>, ks: seq<K>, groups: map<K, seq<Item>>, metricKeys: seq<string>) {
    && (forall k :: k in ks ==> k in groups)
    && |result| == |NonEmptyKeys(ks, groups)|
    && (forall i :: 0 <= i < |result| ==> result[i].key == NonEmptyKeys(ks, groups)[i])
    && (forall i :: 0 <= i < |result| ==>
          result[i].key in groups && Summarises(result[i].summary, groups[result[i].key], metricKeys))
  }

  /** An empty group adds nothing to the aggregate. */
  lemma AggregateSkips<K>(result: seq<GroupEntry<K>>, keys: seq<K>, idx: nat, groups: map<K, seq<Item>>, metricKeys: seq<string>)
    requires idx < |keys| && (forall k :: k in keys ==> k in groups)
    requires SummarisesGroups(result, keys[..idx], groups, metricKeys)
    requires groups[keys[idx]] == []
    ensures SummarisesGroups(result, keys[..idx + 1], groups, metricKeys)
  {
    NonEmptyKeysPrefix(keys, groups, idx);
    assert forall k :: k in keys[..idx + 1] ==> k in keys;
  }

  /** A non-empty group adds its summary at the end of the aggregate. */
  lemma AggregateAppends<K>(result: seq<GroupEntry<K>>, keys: seq<K>, idx: nat, groups: map<K, seq<Item>>,
                            metricKeys: seq<string>, g: GroupSummary)
    requires idx < |keys| && (forall k :: k in keys ==> k in groups)
    requires SummarisesGroups(result, keys[..idx], groups, metricKeys)
    requires groups[keys[idx]] != [] && Summarises(g, groups[keys[idx]], metricKeys)
    ensures SummarisesGroups(result + [GroupEntry(keys[idx], g)], keys[..idx + 1], groups, metricKeys)
  {
    NonEmptyKeysPrefix(keys, groups, idx);
    assert forall k :: k in keys[..idx + 1] ==> k in keys;
    var r := NonEmptyKeys(keys[..idx], groups);
    var r' := NonEmptyKeys(keys[..idx + 1], groups);
    assert r' == r + [keys[idx]];
    var extended := result + [GroupEntry(keys[idx], g)];
    forall i | 0 <= i < |extended|
      ensures extended[i].key == r'[i]
      ensures extended[i].key in groups && Summarises(extended[i].summary, groups[extended[i].key], metricKeys)
    {
      if i < |result| {
        assert extended[i] == result[i];
      }
    }
  }

  /** The aggregate of one group: its count and each metric with values. */
  method SummariseGroup(values: seq<Item>, metricKeys: seq<string>) returns (g: GroupSummary)
    ensures Summarises(g, values, metricKeys)
  {
    var metrics: map<string, MetricSummary> := map[];
    for j := 0 to |metricKeys|
      invariant forall m :: m in metrics <==> m in metricKeys[..j] && MetricValues(values, m) != []
      invariant forall m :: m in metrics ==> Describes(metrics[m], MetricValues(values, m))
    {
      var metric := metricKeys[j];
      var metricValues := CollectMetricValues(values, metric);
      if metricValues != [] {
        var summary := SummariseMetric(metricValues);
        metrics := metrics[metric := summary];
      }
    }
    assert metricKeys[..|metricKeys|] == metricKeys;
    g := GroupSummary(|values|, metrics);
  }

  class TimeSeriesGrouper<K(==,!new)> {
    /** The keys of `groups`, in insertion order. */
    var keys: seq<K>
    var groups: map<K, seq<Item>>

    ghost predicate Valid()
      reads this
    {
      && NoRepeats(keys)
      && (forall k :: k in groups <==> k in keys)
    }

    /** Every group holds at least one item, as add_to_group leaves it. */
    ghost predicate NoEmptyGroups()
      reads this
    {
      forall k :: k in groups ==> groups[k] != []
    }

    constructor ()
      ensures Valid() && NoEmptyGroups()
      ensures keys == [] && groups == map[]
    {
      keys := [];
      groups := map[];
    }

    /** add_to_group: append `value` to the group of `key`, creating it if new. */
    method AddToGroup(key: K, value: Item)
      requires Valid()
      modifies this
      ensures Valid()
      ensures old(NoEmptyGroups()) ==> NoEmptyGroups()
      ensures groups == old(groups)[key := (if key in old(groups) then old(groups)[key] else []) + [value]]
      ensures keys == if key in old(groups) then old(keys) else old(keys) + [key]
    {
      if key !in groups {
        keys := keys + [key];
        groups := groups[key := []];
      }
      groups := groups[key := groups[key] + [value]];
    }

    /**
     * aggregate(metric_keys): one summary per non-empty group, in insertion
     * order of the groups; empty groups are skipped.
     */
    method Aggregate(metricKeys: seq<string>) returns (result: seq<GroupEntry<K>>)
      requires Valid()
      ensures |result| == |NonEmptyKeys(keys, groups)|
      ensures forall i :: 0 <= i < |result| ==> result[i].key == NonEmptyKeys(keys, groups)[i]
      ensures forall i :: 0 <= i < |result| ==>
                result[i].key in groups && Summarises(result[i].summary, groups[result[i].key], metricKeys)
      ensures NoEmptyGroups() ==> |result| == |keys|
    {
      result := [];
      for idx := 0 to |keys|
        invariant SummarisesGroups(result, keys[..idx], groups, metricKeys)
      {
        var groupKey := keys[idx];
        var values := groups[groupKey];
        if values == [] {
          AggregateSkips(result, keys, idx, groups, metricKeys);
          continue;
        }
        var groupResult := SummariseGroup(values, metricKeys);
        AggregateAppends(result, keys, idx, groups, metricKeys, groupResult);
        result := result + [GroupEntry(groupKey, groupResult)];
      }
      assert keys[..|keys|] == keys;
      if NoEmptyGroups() {
        NonEmptyKeysAll(keys, groups);
      }
    }

    /**
     * get_sorted_groups(sort_by, reverse): the group counts, ordered by count
     * with QuickSort when `sort_by` is "count" and there is a group, otherwise
     * in insertion order.
     */
    method GetSortedGroups(sortBy: string, reverse: bool) returns (sorted: seq<GroupEntry<K>>)
      requires Valid()
      ensures ArrangesGroups(keys, groups, sorted)
      ensures sortBy == "count" ==> QuickSort.SortedBy(sorted, CountKey, reverse)
      ensures sortBy != "count" ==> forall i :: 0 <= i < |sorted| ==> sorted[i].key == NonEmptyKeys(keys, groups)[i]
    {
      var aggregated := Aggregate([]);
      forall i | 0 <= i < |aggregated|
        ensures aggregated[i].summary == GroupSummary(|groups[aggregated[i].key]|, map[])
      {
        var g := aggregated[i].summary;
        assert forall m :: m !in g.metrics;
      }
      var groupsList: seq<GroupEntry<K>> := [];
      for i := 0 to |aggregated|
        invariant groupsList == aggregated[..i]
      {
        groupsList := groupsList + [aggregated[i]];
      }
      assert groupsList == aggregated;
      if sortBy == "count" && |groupsList| > 0 {
        sorted := QuickSort.Sort(groupsList, CountKey, reverse);
      } else {
        sorted := groupsList;
        if sortBy == "count" {
          assert sorted == [];
        }
      }
      ArrangementOfGroups(keys, groups, aggregated, sorted);
    }
  }

  /**
   * `sorted` holds one entry per non-empty group, with the group's item
   * count and no metrics, and every non-empty group has its entry.
   */
  ghost predicate ArrangesGroups<K>(keys: seq<K>, groups: map<K, seq<Item>>, sorted: seq<GroupEntry<K>>)
    requires forall k :: k in keys ==> k in groups
  {
    && |sorted| == |NonEmptyKeys(keys, groups)|
    && (forall i :: 0 <= i < |sorted| ==>
          sorted[i].key in NonEmptyKeys(keys, groups)
          && sorted[i].summary == GroupSummary(|groups[sorted[i].key]|, map[]))
    && DistinctBy(sorted, KeyOf)
    && (forall k :: k in keys && groups[k] != [] ==> exists i :: 0 <= i < |sorted| && sorted[i].key == k)
  }

  /** Any permutation of the count-only aggregation arranges the groups. */
  lemma ArrangementOfGroups<K>(keys: seq<K>, groups: map<K, seq<Item>>, s: seq<GroupEntry<K>>, t: seq<GroupEntry<K>>)
    requires forall k :: k in keys ==> k in groups
    requires NoRepeats(keys)
    requires |s| == |NonEmptyKeys(keys, groups)|
    requires forall i :: 0 <= i < |s| ==> s[i].key == NonEmptyKeys(keys, groups)[i]
    requires forall i :: 0 <= i < |s| ==> s[i].summary == GroupSummary(|groups[s[i].key]|, map[])
    requires multiset(t) == multiset(s)
    ensures ArrangesGroups(keys, groups, t)
  {
    var r := NonEmptyKeys(keys, groups);
    NonEmptyKeysDistinct(keys, groups);
    assert DistinctBy(s, KeyOf);
    SubMultisetKeepsDistinct(s, t, KeyOf);
    GroupsCovered(keys, groups, s, t);
    assert |t| == |s| by {
      assert |multiset(t)| == |multiset(s)|;
    }
    forall i | 0 <= i < |t|
      ensures t[i].key in r
      ensures t[i].summary == GroupSummary(|groups[t[i].key]|, map[])
    {
      assert t[i] in multiset(s);
      var k :| 0 <= k < |s| && s[k] == t[i];
    }
  }

  /** `key=lambda x: x[1].get('count', 0)` */
  function CountKey<K>(e: GroupEntry<K>): real {
    e.summary.count as real
  }
}
