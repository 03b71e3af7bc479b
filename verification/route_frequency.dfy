/**
 * RouteFrequencyCounter: trip counts per (pickup, dropoff) route and the N
 * most frequent routes, found by repeated linear max-scan and removal.
 */
module RouteFrequency {
  import opened Distinct

  /** A coordinate pair already rounded to 3 decimal places, in thousandths of a degree. */
  datatype Point = Point(first: int, second: int)

  /** The key of `frequency_map`: the rounded pickup and dropoff points. */
  datatype Route = Route(pickup: Point, dropoff: Point)

  /** One `(route, freq)` entry of `routes_list` and of the result of `get_top_routes`. */
  datatype RouteCount = RouteCount(route: Route, count: int)

  function RouteOf(e: RouteCount): Route {
    e.route
  }

  /** No route is listed twice. */
  ghost predicate DistinctRoutes(l: seq<RouteCount>) {
    DistinctBy(l, RouteOf)
  }

  /**
   * The index the inner scan of get_top_routes settles on: it moves only on a
   * strictly larger count, so it is the first entry holding the maximum.
   */
  function FirstMaxIndex(l: seq<RouteCount>): (m: nat)
    requires |l| > 0
    ensures m < |l|
    ensures forall j :: 0 <= j < |l| ==> l[j].count <= l[m].count
    ensures forall j :: 0 <= j < m ==> l[j].count < l[m].count
  {
    if |l| == 1 then 0
    else
      var m := FirstMaxIndex(l[..|l| - 1]);
      if l[|l| - 1].count > l[m].count then |l| - 1 else m
  }

  /** `routes_list.pop(i)` */
  function RemoveAt<T>(l: seq<T>, i: nat): (r: seq<T>)
    requires i < |l|
    ensures |r| == |l| - 1
  {
    l[..i] + l[i + 1..]
  }

  /**
   * The result of get_top_routes(n) on the entries `l`: n rounds of taking the
   * first maximum out of the remaining entries.
   */
  function TopRoutes(l: seq<RouteCount>, n: int): seq<RouteCount>
    decreases |l|
  {
    if n <= 0 || |l| == 0 then []
    else
      var m := FirstMaxIndex(l);
      [l[m]] + TopRoutes(RemoveAt(l, m), n - 1)
  }

  lemma RemoveAtMultiset<T>(l: seq<T>, i: nat)
    requires i < |l|
    ensures multiset(RemoveAt(l, i)) == multiset(l) - multiset{l[i]}
  {
    assert l == l[..i] + [l[i]] + l[i + 1..];
  }

  /** Exactly min(n, #entries) routes come back, none for n <= 0. */
  lemma {:induction false} TopRoutesLength(l: seq<RouteCount>, n: int)
    ensures |TopRoutes(l, n)| == if n <= 0 then 0 else if n < |l| then n else |l|
    decreases |l|
  {
    if n > 0 && |l| > 0 {
      TopRoutesLength(RemoveAt(l, FirstMaxIndex(l)), n - 1);
    }
  }

  /** Every entry of `r` is one of `l`'s, none taken more often than it occurs there. */
  ghost predicate TakenFrom<T>(r: seq<T>, l: seq<T>) {
    multiset(r) <= multiset(l)
  }

  /** Every returned entry is one of the entries, each taken at most once. */
  lemma {:induction false} TopRoutesFromEntries(l: seq<RouteCount>, n: int)
    ensures TakenFrom(TopRoutes(l, n), l)
    decreases |l|
  {
    if n > 0 && |l| > 0 {
      var m := FirstMaxIndex(l);
      var l' := RemoveAt(l, m);
      TopRoutesFromEntries(l', n - 1);
      var rest := TopRoutes(l', n - 1);
      assert TakenFrom(rest, l');
      RemoveAtMultiset(l, m);
      PutBackWithin(multiset(rest), multiset(l'), l[m], multiset(l));
      assert TopRoutes(l, n) == [l[m]] + rest;
      assert multiset([l[m]] + rest) == multiset{l[m]} + multiset(rest);
    }
  }

  lemma PutBackWithin<T>(part: multiset<T>, rest: multiset<T>, x: T, whole: multiset<T>)
    requires x in whole && part <= rest && rest == whole - multiset{x}
    ensures multiset{x} + part <= whole
  {
  }

  ghost predicate NonIncreasing(r: seq<RouteCount>) {
    forall i, j :: 0 <= i < j < |r| ==> r[i].count >= r[j].count
  }

  /** A bound on every entry's count bounds every returned count. */
  lemma {:induction false} TopRoutesBounded(l: seq<RouteCount>, n: int, b: int)
    requires forall k :: 0 <= k < |l| ==> l[k].count <= b
    ensures forall k :: 0 <= k < |TopRoutes(l, n)| ==> TopRoutes(l, n)[k].count <= b
    decreases |l|
  {
    if n > 0 && |l| > 0 {
      var m := FirstMaxIndex(l);
      var l' := RemoveAt(l, m);
      assert forall k :: 0 <= k < |l'| ==> l'[k] == (if k < m then l[k] else l[k + 1]);
      TopRoutesBounded(l', n - 1, b);
    }
  }

  /** Counts in the result never increase from one entry to the next. */
  lemma {:induction false} TopRoutesNonIncreasing(l: seq<RouteCount>, n: int)
    ensures NonIncreasing(TopRoutes(l, n))
    decreases |l|
  {
    if n > 0 && |l| > 0 {
      var m := FirstMaxIndex(l);
      var rest := TopRoutes(RemoveAt(l, m), n - 1);
      var r := [l[m]] + rest;
      assert r == TopRoutes(l, n);
      TopRoutesNonIncreasing(RemoveAt(l, m), n - 1);
      TopRoutesBounded(RemoveAt(l, m), n - 1, l[m].count);
      forall i, j | 0 <= i < j < |r| ensures r[i].count >= r[j].count {
        assert r[j] == rest[j - 1];
        if i > 0 {
          assert r[i] == rest[i - 1];
        }
      }
    }
  }

  /** No entry of `left` has a larger count than any entry of `r`. */
  ghost predicate Dominates(left: multiset<RouteCount>, r: seq<RouteCount>) {
    forall x, i :: x in left && 0 <= i < |r| ==> x.count <= r[i].count
  }

  /** No entry left out of the result has a larger count than any entry in it. */
  lemma {:induction false} TopRoutesDominate(l: seq<RouteCount>, n: int)
    ensures Dominates(multiset(l) - multiset(TopRoutes(l, n)), TopRoutes(l, n))
    decreases |l|
  {
    if n > 0 && |l| > 0 {
      var m := FirstMaxIndex(l);
      TopRoutesDominate(RemoveAt(l, m), n - 1);
      DominateStep(l, m, TopRoutes(RemoveAt(l, m), n - 1));
      assert TopRoutes(l, n) == [l[m]] + TopRoutes(RemoveAt(l, m), n - 1);
    }
  }

  /** Putting the maximum in front of a dominating selection from the rest dominates what is left of all. */
  lemma DominateStep(l: seq<RouteCount>, m: nat, rest: seq<RouteCount>)
    requires m < |l| && forall j :: 0 <= j < |l| ==> l[j].count <= l[m].count
    requires Dominates(multiset(RemoveAt(l, m)) - multiset(rest), rest)
    ensures Dominates(multiset(l) - multiset([l[m]] + rest), [l[m]] + rest)
  {
    var left := multiset(RemoveAt(l, m)) - multiset(rest);
    LeftOutAfterSelection(l, m, rest);
    BoundedByMax(l, l[m], left, multiset([l[m]] + rest));
    PrependDominates(l[m], rest, left);
  }

  lemma BoundedByMax(l: seq<RouteCount>, top: RouteCount, left: multiset<RouteCount>, taken: multiset<RouteCount>)
    requires forall j :: 0 <= j < |l| ==> l[j].count <= top.count
    requires left == multiset(l) - taken
    ensures forall x :: x in left ==> x.count <= top.count
  {
    forall x | x in left ensures x.count <= top.count {
      assert x in multiset(l);
      var j :| 0 <= j < |l| && l[j] == x;
    }
  }

  lemma PrependDominates(top: RouteCount, rest: seq<RouteCount>, left: multiset<RouteCount>)
    requires Dominates(left, rest) && forall x :: x in left ==> x.count <= top.count
    ensures Dominates(left, [top] + rest)
  {
    var r := [top] + rest;
    forall x, i | x in left && 0 <= i < |r| ensures x.count <= r[i].count {
      if i > 0 {
        assert r[i] == rest[i - 1];
      }
    }
  }

  /** What one selection step leaves out is what the rest of the selection leaves out. */
  lemma LeftOutAfterSelection(l: seq<RouteCount>, m: nat, rest: seq<RouteCount>)
    requires m < |l|
    ensures multiset(l) - multiset([l[m]] + rest) == multiset(RemoveAt(l, m)) - multiset(rest)
  {
    RemoveAtMultiset(l, m);
    assert multiset([l[m]] + rest) == multiset{l[m]} + multiset(rest);
  }


  /** The entries of `l` with count `c`, in order. */
  function WithCount(l: seq<RouteCount>, c: int): seq<RouteCount> {
    if |l| == 0 then [] else (if l[0].count == c then [l[0]] else []) + WithCount(l[1..], c)
  }

  lemma {:induction false} WithCountAppend(a: seq<RouteCount>, b: seq<RouteCount>, c: int)
    ensures WithCount(a + b, c) == WithCount(a, c) + WithCount(b, c)
  {
    if |a| == 0 {
      assert a + b == b;
    } else {
      var head := if a[0].count == c then [a[0]] else [];
      assert (a + b)[0] == a[0] && (a + b)[1..] == a[1..] + b;
      assert WithCount(a + b, c) == head + WithCount(a[1..] + b, c);
      assert WithCount(a, c) == head + WithCount(a[1..], c);
      WithCountAppend(a[1..], b, c);
    }
  }

  lemma {:induction false} WithCountNone(a: seq<RouteCount>, c: int)
    requires forall k :: 0 <= k < |a| ==> a[k].count != c
    ensures WithCount(a, c) == []
  {
    if |a| > 0 {
      WithCountNone(a[1..], c);
    }
  }

  /** Filtering around the removed entry: what is left keeps the order on both sides. */
  lemma WithCountAround(l: seq<RouteCount>, m: nat, c: int)
    requires m < |l|
    ensures WithCount(l, c) == WithCount(l[..m], c) + WithCount([l[m]], c) + WithCount(l[m + 1..], c)
    ensures WithCount(RemoveAt(l, m), c) == WithCount(l[..m], c) + WithCount(l[m + 1..], c)
  {
    assert l == l[..m] + ([l[m]] + l[m + 1..]);
    WithCountAppend(l[..m], [l[m]] + l[m + 1..], c);
    WithCountAppend([l[m]], l[m + 1..], c);
    WithCountAppend(l[..m], l[m + 1..], c);
  }

  lemma WithCountSingle(x: RouteCount, c: int)
    ensures WithCount([x], c) == if x.count == c then [x] else []
  {
    assert [x][1..] == [];
  }

  /** `a` is an initial part of `b`. */
  ghost predicate PrefixOf<T>(a: seq<T>, b: seq<T>) {
    |a| <= |b| && b[..|a|] == a
  }

  /**
   * Ties go to the first-inserted entry: for every count, the result's entries
   * with that count are the first entries of `l` with that count, in `l`'s order.
   */
  lemma {:induction false} TopRoutesTieOrder(l: seq<RouteCount>, n: int, c: int)
    ensures PrefixOf(WithCount(TopRoutes(l, n), c), WithCount(l, c))
    decreases |l|
  {
    if n > 0 && |l| > 0 {
      var m := FirstMaxIndex(l);
      var l' := RemoveAt(l, m);
      TopRoutesTieOrder(l', n - 1, c);
      var rest := TopRoutes(l', n - 1);
      var kept := WithCount(rest, c);
      assert PrefixOf(kept, WithCount(l', c));
      assert TopRoutes(l, n) == [l[m]] + rest;
      WithCountAppend([l[m]], rest, c);
      WithCountAround(l, m, c);
      FirstMaxLeadsItsCount(l, c);
      KeepPrefix(WithCount([l[m]], c), kept, WithCount(l', c), WithCount(l[..m], c), WithCount(l[m + 1..], c));
    }
  }

  /** The first maximum is the first entry of its count, or it is not of count `c` at all. */
  lemma FirstMaxLeadsItsCount(l: seq<RouteCount>, c: int)
    requires |l| > 0
    ensures var m := FirstMaxIndex(l); WithCount([l[m]], c) == [] || WithCount(l[..m], c) == []
  {
    var m := FirstMaxIndex(l);
    WithCountSingle(l[m], c);
    if l[m].count == c {
      WithCountNone(l[..m], c);
    }
  }

  /**
   * The step of the tie-order proof on the filtered sequences: the selected
   * entry's part `x` goes in front of the rest, and when it is not empty it
   * had no earlier entries of its count before it.
   */
  lemma KeepPrefix<T>(x: seq<T>, rest: seq<T>, remaining: seq<T>, before: seq<T>, after: seq<T>)
    requires PrefixOf(rest, remaining) && remaining == before + after
    requires x == [] || before == []
    ensures PrefixOf(x + rest, before + x + after)
  {
    if x == [] {
      assert x + rest == rest;
      assert before + x + after == before + after;
    } else {
      assert before + x + after == x + after;
      assert (x + after)[..|x| + |rest|] == x + rest;
    }
  }

  /** What get_top_routes promises, for entries with distinct routes. */
  lemma TopRoutesSummary(l: seq<RouteCount>, n: int)
    requires DistinctRoutes(l)
    ensures |TopRoutes(l, n)| == if n <= 0 then 0 else if n < |l| then n else |l|
    ensures NonIncreasing(TopRoutes(l, n))
    ensures forall i :: 0 <= i < |TopRoutes(l, n)| ==> TopRoutes(l, n)[i] in l
    ensures DistinctRoutes(TopRoutes(l, n))
    ensures Dominates(multiset(l) - multiset(TopRoutes(l, n)), TopRoutes(l, n))
    ensures forall c :: PrefixOf(WithCount(TopRoutes(l, n), c), WithCount(l, c))
  {
    var r := TopRoutes(l, n);
    TopRoutesLength(l, n);
    TopRoutesNonIncreasing(l, n);
    TopRoutesFromEntries(l, n);
    TopRoutesDominate(l, n);
    SubMultisetKeepsDistinct(l, r, RouteOf);
    forall i | 0 <= i < |r| ensures r[i] in l {
      assert r[i] in multiset(r);
    }
    forall c ensures PrefixOf(WithCount(r, c), WithCount(l, c)) {
      TopRoutesTieOrder(l, n, c);
    }
  }

  lemma {:induction false} DistinctRoutesCount(order: seq<Route>, keys: set<Route>)
    requires forall i, j :: 0 <= i < j < |order| ==> order[i] != order[j]
    requires forall r :: r in keys <==> r in order
    ensures |keys| == |order|
  {
    if |order| > 0 {
      var last := order[|order| - 1];
      var init := order[..|order| - 1];
      assert forall r :: r in keys - {last} <==> r in init;
      DistinctRoutesCount(init, keys - {last});
    }
  }

  /** The inner scan of get_top_routes: the position of the first largest count. */
  method FindFirstMax(routesList: seq<RouteCount>) returns (maxIdx: nat)
    requires |routesList| > 0
    ensures maxIdx == FirstMaxIndex(routesList)
  {
    maxIdx := 0;
    var maxFreq := routesList[0].count;
    for i := 1 to |routesList|
      invariant maxIdx == FirstMaxIndex(routesList[..i])
      invariant maxFreq == routesList[maxIdx].count
    {
      assert routesList[..i + 1][..i] == routesList[..i];
      if routesList[i].count > maxFreq {
        maxFreq := routesList[i].count;
        maxIdx := i;
      }
    }
    assert routesList[..|routesList|] == routesList;
  }

  /**
   * The selection rounds of get_top_routes on `routes_list`: min(n, #entries)
   * times, append the first largest entry and pop it.
   */
  method SelectTopRoutes(entries: seq<RouteCount>, n: int) returns (result: seq<RouteCount>)
    ensures result == TopRoutes(entries, n)
  {
    var routesList := entries;
    result := [];
    var passes := if n < |routesList| then n else |routesList|;
    var t := 0;
    while t < passes
      invariant 0 <= t && |routesList| == |entries| - t
      invariant result + TopRoutes(routesList, n - t) == TopRoutes(entries, n)
    {
      if |routesList| == 0 {
        break;
      }
      var maxIdx := FindFirstMax(routesList);
      result := result + [routesList[maxIdx]];
      routesList := RemoveAt(routesList, maxIdx);
      t := t + 1;
    }
    assert TopRoutes(routesList, n - t) == [];
  }

  class RouteFrequencyCounter {
    /** The keys of `frequency_map`, in insertion order (the order of `items()`). */
    var order: seq<Route>
    var frequencyMap: map<Route, nat>

    ghost predicate Valid()
      reads this
    {
      && (forall i, j :: 0 <= i < j < |order| ==> order[i] != order[j])
      && (forall r :: r in frequencyMap <==> r in order)
      && (forall r :: r in frequencyMap ==> frequencyMap[r] >= 1)
    }

    constructor ()
      ensures Valid()
      ensures order == [] && frequencyMap == map[]
    {
      order := [];
      frequencyMap := map[];
    }

    /** `frequency_map.items()`, in insertion order. */
    function Items(): (items: seq<RouteCount>)
      reads this
      requires Valid()
      ensures |items| == |order|
      ensures DistinctRoutes(items)
      ensures forall i :: 0 <= i < |items| ==>
                items[i].route == order[i] && items[i].count == frequencyMap[order[i]]
    {
      var o, m := order, frequencyMap;
      seq(|o|, i requires 0 <= i < |o| && o[i] in m => RouteCount(o[i], m[o[i]]))
    }

    /** add_route: one more trip on the route between the two rounded points. */
    method AddRoute(pickup: Point, dropoff: Point)
      requires Valid()
      modifies this
      ensures Valid()
      ensures var key := Route(pickup, dropoff);
              && frequencyMap == old(frequencyMap)[key := if key in old(frequencyMap) then old(frequencyMap)[key] + 1 else 1]
              && order == if key in old(frequencyMap) then old(order) else old(order) + [key]
      ensures UniqueRoutes() >= old(UniqueRoutes())
    {
      var routeKey := Route(pickup, dropoff);
      if routeKey in frequencyMap {
        frequencyMap := frequencyMap[routeKey := frequencyMap[routeKey] + 1];
      } else {
        order := order + [routeKey];
        frequencyMap := frequencyMap[routeKey := 1];
      }
    }

    /** get_total_unique_routes: the number of distinct routes added so far. */
    function UniqueRoutes(): (u: nat)
      reads this
      requires Valid()
      ensures u == |order|
    {
      DistinctRoutesCount(order, frequencyMap.Keys);
      |frequencyMap|
    }

    /**
     * get_top_routes(n): the min(n, #routes) most frequent routes by descending
     * count, ties in insertion order. `frequency_map` is only read.
     */
    method GetTopRoutes(n: int) returns (result: seq<RouteCount>)
      requires Valid()
      ensures result == TopRoutes(Items(), n)
      ensures |result| == if n <= 0 then 0 else if n < |order| then n else |order|
      ensures NonIncreasing(result)
      ensures forall i :: 0 <= i < |result| ==>
                result[i].route in frequencyMap && result[i].count == frequencyMap[result[i].route]
      ensures DistinctRoutes(result)
      ensures Dominates(multiset(Items()) - multiset(result), result)
      ensures forall c :: PrefixOf(WithCount(result, c), WithCount(Items(), c))
    {
      if |frequencyMap| == 0 {
        DistinctRoutesCount(order, frequencyMap.Keys);
        result := [];
      } else {
        var routesList := ListItems();
        result := SelectTopRoutes(routesList, n);
      }
      TopRoutesSummary(Items(), n);
      ItemsCarryCounts(result);
    }

    /** The `for route, freq in self.frequency_map.items()` copy into `routes_list`. */
    method ListItems() returns (routesList: seq<RouteCount>)
      requires Valid()
      ensures routesList == Items()
    {
      ghost var items := Items();
      routesList := [];
      for k := 0 to |order|
        invariant routesList == items[..k]
      {
        routesList := routesList + [RouteCount(order[k], frequencyMap[order[k]])];
      }
    }

    /** Entries taken from `items()` carry their route's current count. */
    lemma ItemsCarryCounts(r: seq<RouteCount>)
      requires Valid() && forall i :: 0 <= i < |r| ==> r[i] in Items()
      ensures forall i :: 0 <= i < |r| ==> r[i].route in frequencyMap && r[i].count == frequencyMap[r[i].route]
    {
      var items := Items();
      forall i | 0 <= i < |r|
        ensures r[i].route in frequencyMap && r[i].count == frequencyMap[r[i].route]
      {
        assert r[i] in items;
        var k :| 0 <= k < |items| && items[k] == r[i];
      }
    }
  }
}
